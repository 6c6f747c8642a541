/** Every interleaving of calls, replies and timeouts leaves a wire trace of one shape. */
module TxRunnerTrace {
  import opened Common
  import opened TxRunner

  // ---- How one step changes the conversation ----

  /** Nothing, one more request, or the answer to the one that is out; then perhaps the end. */
  datatype Growth = Stays | Sends(body: Body) | Settles(ok: bool)

  predicate Applies(cur: Option<Talk>, g: Growth)
  {
    match g
    case Stays => true
    case Sends(body) => Out(cur).None? && (if body == Begin then cur.None? else cur.Some? && cur.value.last.None?)
    case Settles(_) => Out(cur).Some?
  }

  function Grown(cur: Option<Talk>, txSeq: nat, g: Growth): Option<Talk>
    requires Applies(cur, g)
  {
    match g
    case Stays => cur
    case Sends(body) =>
      var x := Exchange(txSeq + 1, body, None);
      if cur.None? then Some(Talk(x, [], None)) else Some(cur.value.(last := Some(x)))
    case Settles(ok) =>
      var c, x := cur.value, Out(cur).value.(reply := Some(ok));
      if c.begin.reply.None? then Some(c.(begin := x))
      else if x.body.Exec? then Some(c.(statements := c.statements + [x], last := None))
      else Some(c.(last := Some(x)))
  }

  function Added(cur: Option<Talk>, txSeq: nat, g: Growth): seq<Entry>
    requires Applies(cur, g)
  {
    match g
    case Stays => []
    case Sends(body) => [Sent(txSeq + 1, body)]
    case Settles(ok) => [Settled(Out(cur).value.id, ok)]
  }

  /** What a step adds to the log and to the finished transactions; `closes` says whether the
      conversation is over with it. */
  predicate Records(s: Runner, s': Runner, cur: Option<Talk>, g: Growth, closes: bool)
    requires Applies(cur, g)
  {
    && s'.log == s.log + Added(cur, s.txSeq, g)
    && s.txSeq <= s'.txSeq && (g.Sends? ==> s'.txSeq == s.txSeq + 1)
    && if closes then
         var now := Grown(cur, s.txSeq, g);
         now.Some? && |s'.seen| == |s.seen| + 1 && s'.seen == s.seen + [s'.seen[|s.seen|]] && WholeRun(now.value, s'.seen[|s.seen|])
       else s'.seen == s.seen
  }

  predicate Fits(s: Runner, cur: Option<Talk>)
  {
    PendingIsOut(s, cur) && Unfinished(s, cur)
  }

  /** A step with its growth: the log follows and the rest still fits. */
  predicate Moves(s: Runner, s': Runner, cur: Option<Talk>, g: Growth, closes: bool)
  {
    Applies(cur, g) && Records(s, s', cur, g, closes) && Fits(s', if closes then None else Grown(cur, s.txSeq, g))
  }

  // ---- Pending requests ----

  lemma PendingSend(s: Runner, body: Body)
    requires Outstanding(s.pending) == map[] && forall id | id in s.pending :: id <= s.txSeq
    ensures Outstanding(Send(s, body).pending) == map[s.txSeq + 1 := body]
    ensures forall id | id in Send(s, body).pending :: id <= s.txSeq + 1
  {
    forall i | i in s.pending ensures s.pending[i].Unwritten? { assert i !in Outstanding(s.pending); }
  }

  lemma PendingUnwritten(s: Runner, truthy: bool, cur: Option<Talk>)
    requires PendingIsOut(s, cur)
    ensures PendingIsOut(FailToSend(s, truthy), cur)
  {
    assert Outstanding(s.pending[s.txSeq + 1 := Unwritten]) == Outstanding(s.pending);
  }

  /** A settled request was the one that was out, and then none is. */
  lemma OutSettles(s: Runner, cur: Option<Talk>, id: nat)
    requires PendingIsOut(s, cur) && id in s.pending && s.pending[id].Awaited?
    ensures Out(cur) == Some(Exchange(id, s.pending[id].body, None))
    ensures Outstanding(s.pending - {id}) == map[]
  {
    assert id in Outstanding(s.pending);
    forall i | i in s.pending && i != id ensures s.pending[i].Unwritten? { assert i !in Outstanding(s.pending); }
  }

  lemma TimerClears(s: Runner, cur: Option<Talk>, id: nat)
    requires PendingIsOut(s, cur) && id in s.pending && s.pending[id].Unwritten?
    ensures PendingIsOut(s.(pending := s.pending - {id}), cur)
  {
    assert Outstanding(s.pending - {id}) == Outstanding(s.pending);
  }

  // ---- Outcomes ----

  lemma OutcomeSnoc(os: seq<Outcome>, o: Outcome)
    requires Orderly(os) && (o.Skipped? <==> Latched(os))
    ensures Orderly(os + [o]) && (Latched(os + [o]) <==> Latched(os) || Latches(o))
  {
    assert (os + [o])[..|os|] == os;
  }

  lemma AnswersSnoc(os: seq<Outcome>, o: Outcome)
    ensures Answers(os + [o]) == Answers(os) +
            match o { case Succeeded => [Answer(|os|, true)] case Refused => [Answer(|os|, false)] case _ => [] }
  {
    assert (os + [o])[..|os|] == os;
  }

  lemma CarriesSnoc(xs: seq<Exchange>, answers: seq<Answer>, x: Exchange, a: Answer)
    requires Carries(xs, answers) && x.body == Exec(a.k) && x.reply == Some(a.ok)
    ensures Carries(xs + [x], answers + [a])
  {
    assert (xs + [x])[..|xs|] == xs && (answers + [a])[..|answers|] == answers;
  }

  /** An accepted statement that leaves no trace on the wire. */
  lemma SilentOutcome(s: Runner, s': Runner, c: Talk, o: Outcome)
    requires Book(s, c) && |s.outcomes| < |s.writings| && Turned(s.writings[|s.outcomes|], o) && (o.Unsent? || o.Skipped?) && (o.Skipped? <==> s.failed)
    requires s'.outcomes == s.outcomes + [o] && s'.writings == s.writings && s'.failed == (s.failed || Latches(o))
    ensures Book(s', c)
  {
    OutcomeSnoc(s.outcomes, o);
    AnswersSnoc(s.outcomes, o);
    assert Answers(s'.outcomes) == Answers(s.outcomes);
  }

  /** One that was sent and is now answered. */
  lemma AnsweredOutcome(s: Runner, s': Runner, c: Talk, x: Exchange, ok: bool)
    requires Book(s, c) && !s.failed && |s.outcomes| < |s.writings| && s.writings[|s.outcomes|].Written? && x.body == Exec(|s.outcomes|) && x.reply == Some(ok)
    requires s'.outcomes == s.outcomes + [if ok then Succeeded else Refused] && s'.writings == s.writings && s'.failed == !ok
    ensures Book(s', c.(statements := c.statements + [x], last := None))
  {
    var o := if ok then Succeeded else Refused;
    OutcomeSnoc(s.outcomes, o);
    AnswersSnoc(s.outcomes, o);
    CarriesSnoc(c.statements, Answers(s.outcomes), x, Answer(|s.outcomes|, ok));
  }

  // ---- A call starts, statements are accepted and started ----

  lemma StartMoves(s: Runner, cur: Option<Talk>)
    requires Fits(s, cur) && !s.active
    ensures Moves(s, Start(s), cur, Sends(Begin), false)
  {
    PendingSend(Entered(s), Begin);
  }

  lemma SqlMoves(s: Runner, cur: Option<Talk>, handle: nat, writing: Writing)
    requires Fits(s, cur) && Accepts(s, handle)
    ensures Moves(s, s.(writings := s.writings + [writing]), cur, Stays, false)
  {
    assert s.pc == AtCallback;
  }

  predicate StatementsMayRun(s: Runner)
  {
    s.pc == AtCallback || s.pc == AtQueue || (s.pc == AtCatch && s.open)
  }

  /** The queue is what decides, wherever the function is suspended while statements may run. */
  lemma QueueStays(s: Runner, s': Runner, c: Talk, c': Talk)
    requires Unfinished(s, Some(c)) && StatementsMayRun(s) && Queue(s', c')
    requires s'.pc == s.pc && s'.active == s.active && s'.open == s.open && s'.closed == s.closed && s'.callback == s.callback
    requires s.failed ==> s'.failed
    ensures Unfinished(s', Some(c'))
  {
  }

  lemma StatementMeansQueue(s: Runner, cur: Option<Talk>)
    requires Unfinished(s, cur) && CanStartStatement(s)
    ensures StatementsMayRun(s) && cur.Some? && Queue(s, cur.value)
  {
  }

  lemma NoneInFlight(s: Runner, c: Talk)
    requires Queue(s, c) && PendingIsOut(s, Some(c))
    ensures InFlight(s) || (c.last.None? && Outstanding(s.pending) == map[])
  {
    if c.last.Some? {
      var x := c.last.value;
      assert x.id in Outstanding(s.pending);
      assert x.id in s.pending && s.pending[x.id].body.Exec?;
    }
  }

  /** The next statement goes out, in its place in call order. */
  lemma StatementIsSent(s: Runner, cur: Option<Talk>)
    requires Fits(s, cur) && CanStartStatement(s) && !s.failed && s.writings[|s.outcomes|].Written?
    ensures Moves(s, StartStatement(s), cur, Sends(Exec(|s.outcomes|)), false)
  {
    StatementMeansQueue(s, cur);
    NoneInFlight(s, cur.value);
    PendingSend(s, Exec(|s.outcomes|));
    QueueStays(s, StartStatement(s), cur.value, cur.value.(last := Some(Exchange(s.txSeq + 1, Exec(|s.outcomes|), None))));
  }

  lemma StatementIsSkipped(s: Runner, cur: Option<Talk>)
    requires Fits(s, cur) && CanStartStatement(s) && s.failed
    ensures Moves(s, StartStatement(s), cur, Stays, false)
  {
    StatementMeansQueue(s, cur);
    var c, s' := cur.value, StartStatement(s);
    NoneInFlight(s, c);
    assert Book(s', c) by { SilentOutcome(s, s', c, Skipped); }
    QueueStays(s, s', c, c);
  }

  lemma StatementIsUnwritten(s: Runner, cur: Option<Talk>, truthy: bool)
    requires Fits(s, cur) && CanStartStatement(s) && !s.failed && s.writings[|s.outcomes|] == Throws(truthy)
    ensures Moves(s, FailToSend(s, truthy), cur, Stays, false)
  {
    StatementMeansQueue(s, cur);
    var c, s' := cur.value, FailToSend(s, truthy);
    NoneInFlight(s, c);
    assert PendingIsOut(s', cur) by { PendingUnwritten(s, truthy, cur); }
    assert Book(s', c) by { SilentOutcome(s, s', c, Unsent(truthy)); }
    QueueStays(s, s', c, c);
  }

  /** It is skipped after a latched failure, or fails before it is written: the wire is silent. */
  lemma StatementIsSilent(s: Runner, cur: Option<Talk>)
    requires Fits(s, cur) && CanStartStatement(s) && (s.failed || s.writings[|s.outcomes|].Throws?)
    ensures Moves(s, StartStatement(s), cur, Stays, false)
  {
    if s.failed { StatementIsSkipped(s, cur); } else { StatementIsUnwritten(s, cur, s.writings[|s.outcomes|].truthy); }
  }

  // ---- Replies ----

  /** The request that is out tells where the function is suspended. */
  lemma OutTellsPc(s: Runner, cur: Option<Talk>)
    requires Unfinished(s, cur) && Out(cur).Some?
    ensures Out(cur).value.body == Begin <==> s.pc == AtBegin
    ensures Out(cur).value.body == Commit <==> s.pc == AtCommit
    ensures Out(cur).value.body == Rollback <==> s.pc == AtRollback
    ensures Out(cur).value.body.Exec? <==> StatementsMayRun(s)
    ensures StatementsMayRun(s) ==> Queue(s, cur.value) && cur.value.last == Out(cur)
  {
  }

  lemma BeginSettles(s: Runner, cur: Option<Talk>, id: nat, ok: bool)
    requires Fits(s, cur) && id in s.pending && s.pending[id] == Awaited(Begin)
    ensures Moves(s, SettleRequest(s, id, ok), cur, Settles(ok), false)
  {
    OutSettles(s, cur, id);
    OutTellsPc(s, cur);
  }

  lemma ExecSettles(s: Runner, cur: Option<Talk>, id: nat, ok: bool)
    requires Fits(s, cur) && id in s.pending && s.pending[id].Awaited? && s.pending[id].body.Exec?
    ensures Moves(s, SettleRequest(s, id, ok), cur, Settles(ok), false)
  {
    OutSettles(s, cur, id);
    OutTellsPc(s, cur);
    var c, s' := cur.value, SettleRequest(s, id, ok);
    var x := c.last.value.(reply := Some(ok));
    AnsweredOutcome(s, s', c, x, ok);
    QueueStays(s, s', c, c.(statements := c.statements + [x], last := None));
  }

  lemma EndingIsWhole(s: Runner, c: Talk, body: Body, ok: bool)
    requires Ending(s, c, body, Some(ok)) && body in [Commit, Rollback]
    ensures WholeRun(c, Seen(s.writings, s.outcomes, s.callback, body == Commit && ok))
  {
  }

  lemma CommitSettles(s: Runner, cur: Option<Talk>, id: nat, ok: bool)
    requires Fits(s, cur) && id in s.pending && s.pending[id] == Awaited(Commit)
    ensures Moves(s, SettleRequest(s, id, ok), cur, Settles(ok), ok)
  {
    OutSettles(s, cur, id);
    OutTellsPc(s, cur);
    EndingIsWhole(s, Grown(cur, s.txSeq, Settles(ok)).value, Commit, ok);
  }

  lemma RollbackSettles(s: Runner, cur: Option<Talk>, id: nat, ok: bool)
    requires Fits(s, cur) && id in s.pending && s.pending[id] == Awaited(Rollback)
    ensures Moves(s, SettleRequest(s, id, ok), cur, Settles(ok), true)
  {
    OutSettles(s, cur, id);
    OutTellsPc(s, cur);
    EndingIsWhole(s, Grown(cur, s.txSeq, Settles(ok)).value, Rollback, ok);
  }

  lemma TimerMoves(s: Runner, cur: Option<Talk>, id: nat, ok: bool)
    requires Fits(s, cur) && id in s.pending && s.pending[id].Unwritten?
    ensures Moves(s, SettleRequest(s, id, ok), cur, Stays, false)
  {
    TimerClears(s, cur, id);
  }

  // ---- The callback ends, the queue drains ----

  lemma EndCallbackMoves(s: Runner, cur: Option<Talk>, returned: bool)
    requires Fits(s, cur)
    ensures Moves(s, EndCallback(s, returned), cur, Stays, false)
  {
  }

  /** The commit goes out with the queue drained and no failure latched. */
  lemma CommitIsSent(s: Runner, cur: Option<Talk>)
    requires Fits(s, cur) && |s.outcomes| == |s.writings| && s.pc == AtQueue && !s.failed
    ensures Moves(s, DrainQueue(s), cur, Sends(Commit), false)
  {
    PendingSend(s.(open := false, pc := AtCommit), Commit);
  }

  lemma RollbackIsSent(s: Runner, cur: Option<Talk>)
    requires Fits(s, cur) && |s.outcomes| == |s.writings| && s.pc == AtCatch && s.open
    ensures Moves(s, DrainQueue(s), cur, Sends(Rollback), false)
  {
    PendingSend(s.(pc := AtRollback), Rollback);
  }

  /** Nothing is sent after a begin or a commit that failed. */
  lemma FailureIsFinal(s: Runner, cur: Option<Talk>)
    requires Fits(s, cur) && |s.outcomes| == |s.writings| && s.pc == AtCatch && !s.open
    ensures Moves(s, DrainQueue(s), cur, Stays, true)
  {
    var c := cur.value;
    if c.begin.reply == Some(true) { EndingIsWhole(s, c, Commit, false); }
  }

  // ---- Every step ----

  lemma SettleMoves(s: Runner, cur: Option<Talk>, id: nat, ok: bool) returns (g: Growth, closes: bool)
    requires Fits(s, cur)
    ensures Moves(s, SettleRequest(s, id, ok), cur, g, closes)
  {
    g, closes := Settles(ok), false;
    if id !in s.pending {
      g := Stays;
    } else {
      match s.pending[id]
      case Unwritten => g := Stays; TimerMoves(s, cur, id, ok);
      case Awaited(Begin) => BeginSettles(s, cur, id, ok);
      case Awaited(Exec(_)) => ExecSettles(s, cur, id, ok);
      case Awaited(Commit) => closes := ok; CommitSettles(s, cur, id, ok);
      case Awaited(Rollback) => closes := true; RollbackSettles(s, cur, id, ok);
    }
  }

  lemma StatementMoves(s: Runner, cur: Option<Talk>) returns (g: Growth)
    requires Fits(s, cur)
    ensures Moves(s, StartStatement(s), cur, g, false)
  {
    g := Stays;
    if CanStartStatement(s) {
      if s.failed || s.writings[|s.outcomes|].Throws? {
        StatementIsSilent(s, cur);
      } else {
        g := Sends(Exec(|s.outcomes|));
        StatementIsSent(s, cur);
      }
    }
  }

  lemma DrainMoves(s: Runner, cur: Option<Talk>) returns (g: Growth, closes: bool)
    requires Fits(s, cur)
    ensures Moves(s, DrainQueue(s), cur, g, closes)
  {
    g, closes := Stays, false;
    if |s.outcomes| == |s.writings| {
      if s.pc == AtQueue && !s.failed {
        g := Sends(Commit);
        CommitIsSent(s, cur);
      } else if s.pc == AtCatch && s.open {
        g := Sends(Rollback);
        RollbackIsSent(s, cur);
      } else if s.pc == AtCatch {
        closes := true;
        FailureIsFinal(s, cur);
      }
    }
  }

  lemma OtherMoves(s: Runner, cur: Option<Talk>)
    requires Fits(s, cur)
    ensures Moves(s, s.(txSeq := s.txSeq + 1), cur, Stays, false)
  {
  }

  lemma StepMoves(s: Runner, e: Event, cur: Option<Talk>) returns (g: Growth, closes: bool)
    requires Fits(s, cur)
    ensures Moves(s, Step(s, e), cur, g, closes)
  {
    g, closes := Stays, false;
    match e
    case Call => if !s.active { g := Sends(Begin); StartMoves(s, cur); }
    case Sql(handle, writing) => if Accepts(s, handle) { SqlMoves(s, cur, handle, writing); }
    case NextStatement => g := StatementMoves(s, cur);
    case Settle(id, ok) => g, closes := SettleMoves(s, cur, id, ok);
    case CallbackEnds(returned) => EndCallbackMoves(s, cur, returned);
    case QueueDrained => g, closes := DrainMoves(s, cur);
    case OtherRequest => OtherMoves(s, cur);
  }

  // ---- The log keeps telling the conversation ----

  function SpellCur(cur: Option<Talk>): seq<Entry>
  {
    if cur.Some? then SpellTalk(cur.value) else []
  }

  lemma SpellSnoc(xs: seq<Exchange>, x: Exchange)
    ensures Spell(xs + [x]) == Spell(xs) + SpellOne(x)
  {
    assert (xs + [x])[..|xs|] == xs;
  }

  lemma StatementSpelled(c: Talk, ok: bool)
    requires c.last.Some? && c.last.value.reply.None?
    ensures var x := c.last.value;
            SpellTalk(c.(statements := c.statements + [x.(reply := Some(ok))], last := None)) == SpellTalk(c) + [Settled(x.id, ok)]
  {
    var x := c.last.value;
    var y := x.(reply := Some(ok));
    var b, sts := SpellOne(c.begin), Spell(c.statements);
    SpellSnoc(c.statements, y);
    assert SpellOne(x) == [Sent(x.id, x.body)] && SpellOne(y) == [Sent(x.id, x.body)] + [Settled(x.id, ok)];
    assert b + (sts + ([Sent(x.id, x.body)] + [Settled(x.id, ok)])) + [] == b + sts + [Sent(x.id, x.body)] + [Settled(x.id, ok)];
  }

  /** Each growth adds to the spelling exactly what it adds to the log. */
  lemma SpellingGrows(cur: Option<Talk>, txSeq: nat, g: Growth)
    requires Applies(cur, g) && (cur.Some? && cur.value.begin.reply.None? ==> cur.value.statements == [] && cur.value.last.None?)
    ensures SpellCur(Grown(cur, txSeq, g)) == SpellCur(cur) + Added(cur, txSeq, g)
  {
    if g.Settles? && cur.value.begin.reply.Some? && Out(cur).value.body.Exec? { StatementSpelled(cur.value, g.ok); }
  }

  lemma IncreasingLater(xs: seq<Exchange>, after: nat, upTo: nat, later: nat)
    requires Increasing(xs, after, upTo) && upTo <= later
    ensures Increasing(xs, after, later)
  {
  }

  lemma OrderGrows(cur: Option<Talk>, mark: nat, txSeq: nat, later: nat, g: Growth)
    requires Applies(cur, g) && mark <= txSeq <= later && (g.Sends? ==> later == txSeq + 1)
    requires cur.Some? ==> Ordered(cur.value, mark, txSeq)
    ensures Grown(cur, txSeq, g).Some? ==> Ordered(Grown(cur, txSeq, g).value, mark, later)
  {
    if cur.Some? {
      var c := cur.value;
      if c.last.None? { IncreasingLater(c.statements, c.begin.id, txSeq, later); }
      if g.Settles? && c.begin.reply.Some? && c.last.value.body.Exec? {
        var x := c.last.value.(reply := Some(g.ok));
        assert (c.statements + [x])[..|c.statements|] == c.statements;
      }
    }
  }

  lemma ChronicleJoins(past: seq<Talk>, seen: seq<Seen>, c: Talk, last: Seen, txSeq: nat)
    requires Chronicle(past, seen) && WholeRun(c, last) && Ordered(c, Mark(past), txSeq)
    ensures Chronicle(past + [c], seen + [last]) && Mark(past + [c]) <= txSeq
  {
    assert (past + [c])[..|past|] == past && (seen + [last])[..|seen|] == seen;
  }

  lemma TaleSnoc(past: seq<Talk>, c: Talk)
    ensures Tale(past + [c]) == Tale(past) + SpellTalk(c)
  {
    assert (past + [c])[..|past|] == past;
  }

  lemma ToldOpen(s: Runner, s': Runner, past: seq<Talk>, cur: Option<Talk>, g: Growth, closes: bool)
    requires Told(s.log, s.seen, s.txSeq, past, cur) && Unfinished(s, cur) && Applies(cur, g) && Records(s, s', cur, g, closes)
    ensures Told(s'.log, s.seen, s'.txSeq, past, Grown(cur, s.txSeq, g))
  {
    var now := Grown(cur, s.txSeq, g);
    assert s'.log == Tale(past) + SpellCur(now) by {
      SpellingGrows(cur, s.txSeq, g);
      Regroup(Tale(past), SpellCur(cur), Added(cur, s.txSeq, g));
    }
    OrderGrows(cur, Mark(past), s.txSeq, s'.txSeq, g);
  }

  lemma ToldCloses(log: seq<Entry>, seen: seq<Seen>, txSeq: nat, past: seq<Talk>, c: Talk, last: Seen)
    requires Told(log, seen, txSeq, past, Some(c)) && WholeRun(c, last)
    ensures Told(log, seen + [last], txSeq, past + [c], None)
  {
    ChronicleJoins(past, seen, c, last, txSeq);
    TaleSnoc(past, c);
  }

  lemma ToldGrows(s: Runner, s': Runner, past: seq<Talk>, cur: Option<Talk>, g: Growth, closes: bool) returns (past': seq<Talk>)
    requires Told(s.log, s.seen, s.txSeq, past, cur) && Unfinished(s, cur) && Applies(cur, g) && Records(s, s', cur, g, closes)
    ensures Told(s'.log, s'.seen, s'.txSeq, past', if closes then None else Grown(cur, s.txSeq, g))
  {
    var now := Grown(cur, s.txSeq, g);
    assert Told(s'.log, s.seen, s'.txSeq, past, now) by { ToldOpen(s, s', past, cur, g, closes); }
    past' := past;
    if closes {
      var last := s'.seen[|s.seen|];
      past' := past + [now.value];
      ToldCloses(s'.log, s.seen, s'.txSeq, past, now.value, last);
    }
  }

  lemma StepKeeps(s: Runner, e: Event, past: seq<Talk>, cur: Option<Talk>) returns (past': seq<Talk>, cur': Option<Talk>)
    requires Tells(s, past, cur)
    ensures Tells(Step(s, e), past', cur')
  {
    var s' := Step(s, e);
    var g, closes := StepMoves(s, e, cur);
    past' := ToldGrows(s, s', past, cur, g, closes);
    cur' := if closes then None else Grown(cur, s.txSeq, g);
  }

  /** The trace theorem: for every interleaving, the wire carries whole transactions one after
      the other and at most one unfinished one, with never more than one request outstanding. */
  lemma {:induction false} TransactionTrace(es: seq<Event>) returns (past: seq<Talk>, cur: Option<Talk>)
    ensures Tells(Run(Fresh(), es), past, cur)
    ensures |Outstanding(Run(Fresh(), es).pending)| <= 1
    decreases |es|
  {
    if es == [] {
      past, cur := [], None;
    } else {
      var init := es[..|es| - 1];
      var past0, cur0 := TransactionTrace(init);
      past, cur := StepKeeps(Run(Fresh(), init), es[|es| - 1], past0, cur0);
    }
  }

  // ---- What a commit says about the statements ----

  /** Up to the first latched failure every statement gets its turn, after it none does. */
  lemma {:induction false} OnlyTheLatchStops(os: seq<Outcome>)
    requires Orderly(os)
    ensures !Latched(os) <==> forall i | 0 <= i < |os| :: os[i] == Succeeded || os[i] == Unsent(false)
    ensures forall i, j | 0 <= i < j < |os| && Latches(os[i]) :: os[j] == Skipped
    decreases |os|
  {
    if os != [] {
      var init := os[..|os| - 1];
      OnlyTheLatchStops(init);
      assert forall i | 0 <= i < |init| :: os[i] == init[i];
      LatchIsSomewhere(init);
    }
  }

  lemma {:induction false} LatchIsSomewhere(os: seq<Outcome>)
    ensures Latched(os) <==> exists i :: 0 <= i < |os| && Latches(os[i])
    decreases |os|
  {
    if os != [] {
      var init := os[..|os| - 1];
      LatchIsSomewhere(init);
      if Latched(init) {
        var i :| 0 <= i < |init| && Latches(init[i]);
        assert Latches(os[i]);
      }
      if i :| 0 <= i < |os| && Latches(os[i]) {
        if i < |init| { assert Latches(init[i]); }
      }
    }
  }

  predicate Commits(c: Talk)
  {
    c.last.Some? && c.last.value.body == Commit
  }

  predicate AllSucceeded(os: seq<Outcome>)
  {
    forall i | 0 <= i < |os| :: os[i] == Succeeded
  }

  /** No statement has parameters whose serialization throws a falsy value. */
  predicate NoneThrowsFalsy(ws: seq<Writing>)
  {
    forall i | 0 <= i < |ws| :: ws[i] != Throws(false)
  }

  /** Without a latched failure the parameters alone decide whether everything succeeded. */
  lemma ParametersDecide(ws: seq<Writing>, os: seq<Outcome>)
    requires Followed(ws, os) && |os| == |ws| && Orderly(os) && !Latched(os)
    ensures AllSucceeded(os) <==> NoneThrowsFalsy(ws)
  {
    OnlyTheLatchStops(os);
    assert forall i | 0 <= i < |os| :: Turned(ws[i], os[i]);
  }

  lemma {:induction false} ChronicleAt(past: seq<Talk>, seen: seq<Seen>, i: nat)
    requires Chronicle(past, seen) && i < |past|
    ensures |seen| == |past| && WholeRun(past[i], seen[i])
    decreases |past|
  {
    ChronicleLength(past, seen);
    var n := |past| - 1;
    if i < n { ChronicleAt(past[..n], seen[..n], i); }
  }

  lemma {:induction false} ChronicleLength(past: seq<Talk>, seen: seq<Seen>)
    requires Chronicle(past, seen)
    ensures |seen| == |past|
    decreases |past|
  {
    if past != [] { ChronicleLength(past[..|past| - 1], seen[..|seen| - 1]); }
  }

  /** In every run, a transaction whose commit goes out had all its accepted statements succeed
      exactly when none of them was called with parameters whose serialization throws a falsy value,
      which the latch cannot hold. */
  lemma CommitMeansSuccessIff(es: seq<Event>) returns (past: seq<Talk>, cur: Option<Talk>)
    ensures var s := Run(Fresh(), es);
            && Tells(s, past, cur) && |past| == |s.seen|
            && (forall i | 0 <= i < |past| && Commits(past[i]) :: AllSucceeded(s.seen[i].outcomes) <==> NoneThrowsFalsy(s.seen[i].writings))
            && (cur.Some? && Commits(cur.value) ==> (AllSucceeded(s.outcomes) <==> NoneThrowsFalsy(s.writings)))
  {
    past, cur := TransactionTrace(es);
    var s := Run(Fresh(), es);
    ChronicleLength(past, s.seen);
    forall i | 0 <= i < |past| && Commits(past[i]) ensures AllSucceeded(s.seen[i].outcomes) <==> NoneThrowsFalsy(s.seen[i].writings) {
      ChronicleAt(past, s.seen, i);
      ParametersDecide(s.seen[i].writings, s.seen[i].outcomes);
    }
    if cur.Some? && Commits(cur.value) {
      CommittingMeansDone(s, cur.value);
      ParametersDecide(s.writings, s.outcomes);
    }
  }

  lemma CommittingMeansDone(s: Runner, c: Talk)
    requires Unfinished(s, Some(c)) && Commits(c)
    ensures Followed(s.writings, s.outcomes) && |s.outcomes| == |s.writings| && Orderly(s.outcomes) && !Latched(s.outcomes)
  {
  }

  /** Was a statement called with such parameters? */
  ghost predicate Called(es: seq<Event>, w: Writing)
  {
    exists i :: 0 <= i < |es| && es[i].Sql? && es[i].writing == w
  }

  /** The parameters on record are those of calls of `tx.sql`. */
  ghost predicate AllCalled(s: Runner, es: seq<Event>)
  {
    && (forall w | w in s.writings :: Called(es, w))
    && (forall i, w | 0 <= i < |s.seen| && w in s.seen[i].writings :: Called(es, w))
  }

  /** A step keeps the record, starts a new one, adds one call to it, or closes it. */
  ghost predicate Recorded(s: Runner, s': Runner, e: Event)
  {
    && (s'.writings == s.writings || s'.writings == [] || (e.Sql? && s'.writings == s.writings + [e.writing]))
    && (s'.seen == s.seen || (|s'.seen| == |s.seen| + 1 && s'.seen == s.seen + [s'.seen[|s.seen|]] && s'.seen[|s.seen|].writings == s.writings))
  }

  lemma ResumeRecords(s: Runner, body: Body, ok: bool, e: Event)
    ensures Recorded(s, Resumed(s, body, ok), e)
  {
  }

  lemma SettleRecords(s: Runner, id: nat, ok: bool)
    ensures Recorded(s, SettleRequest(s, id, ok), Settle(id, ok))
  {
    if id in s.pending && s.pending[id].Awaited? {
      ResumeRecords(s.(pending := s.pending - {id}, log := s.log + [Settled(id, ok)]), s.pending[id].body, ok, Settle(id, ok));
    }
  }

  lemma DrainRecords(s: Runner)
    ensures Recorded(s, DrainQueue(s), QueueDrained)
  {
  }

  lemma StatementRecords(s: Runner)
    ensures StartStatement(s).writings == s.writings && StartStatement(s).seen == s.seen
  {
  }

  lemma StepRecords(s: Runner, e: Event)
    ensures Recorded(s, Step(s, e), e)
  {
    match e
    case Settle(id, ok) => SettleRecords(s, id, ok);
    case QueueDrained => DrainRecords(s);
    case NextStatement => StatementRecords(s);
    case _ =>
  }

  lemma CalledBefore(es: seq<Event>, e: Event, w: Writing)
    requires Called(es, w) || (e.Sql? && e.writing == w)
    ensures Called(es + [e], w)
  {
    var more := es + [e];
    if Called(es, w) {
      var i :| 0 <= i < |es| && es[i].Sql? && es[i].writing == w;
      assert more[i] == es[i];
    } else {
      assert more[|es|] == e;
    }
  }

  lemma StepCalls(s: Runner, s': Runner, es: seq<Event>, e: Event)
    requires AllCalled(s, es) && Recorded(s, s', e)
    ensures AllCalled(s', es + [e])
  {
    forall w | w in s'.writings ensures Called(es + [e], w) { CalledBefore(es, e, w); }
    forall i, w | 0 <= i < |s'.seen| && w in s'.seen[i].writings ensures Called(es + [e], w) { CalledBefore(es, e, w); }
  }

  lemma {:induction false} WritingsWereCalled(es: seq<Event>)
    ensures AllCalled(Run(Fresh(), es), es)
    decreases |es|
  {
    if es != [] {
      var init, e := es[..|es| - 1], es[|es| - 1];
      WritingsWereCalled(init);
      var s := Run(Fresh(), init);
      StepRecords(s, e);
      StepCalls(s, Step(s, e), init, e);
      assert es == init + [e];
    }
  }

  /** So a caller whose parameters never throw a falsy value can take a resolved transaction for the
      success of every statement. */
  lemma ResolvedMeansSuccess(es: seq<Event>, i: nat)
    requires !Called(es, Throws(false)) && i < |Run(Fresh(), es).seen| && Run(Fresh(), es).seen[i].resolved
    ensures AllSucceeded(Run(Fresh(), es).seen[i].outcomes)
  {
    var past, cur := CommitMeansSuccessIff(es);
    WritingsWereCalled(es);
    var seen := Run(Fresh(), es).seen;
    assert NoneThrowsFalsy(seen[i].writings) by {
      forall j | 0 <= j < |seen[i].writings| ensures seen[i].writings[j] != Throws(false) { assert seen[i].writings[j] in seen[i].writings; }
    }
    ChronicleAt(past, seen, i);
    assert Commits(past[i]);
  }

  /** Every statement that succeeded or was refused is on the wire, and nothing else is. */
  lemma {:induction false} AnswersAreTheSent(os: seq<Outcome>, k: nat)
    requires k < |os|
    ensures (os[k].Succeeded? <==> Answer(k, true) in Answers(os)) && (os[k].Refused? <==> Answer(k, false) in Answers(os))
    ensures forall a | a in Answers(os) :: a.k < |os|
    decreases |os|
  {
    var n := |os| - 1;
    assert os == os[..n] + [os[n]];
    AnswersSnoc(os[..n], os[n]);
    if n > 0 {
      AnswersAreTheSent(os[..n], if k < n then k else 0);
    }
  }

  // ---- Statements that cannot be written ----

  lemma RunSnoc(s: Runner, es: seq<Event>, e: Event)
    ensures Run(s, es + [e]) == Step(Run(s, es), e)
  {
    assert (es + [e])[..|es|] == es;
  }

  lemma RunTwice(s: Runner, es: seq<Event>, e: Event, f: Event)
    ensures Run(s, es + [e, f]) == Step(Step(Run(s, es), e), f)
  {
    assert es + [e, f] == es + [e] + [f];
    RunSnoc(s, es + [e], f);
    RunSnoc(s, es, e);
  }

  /** A transaction of one statement whose parameters throw when they are written, until its callback
      has returned. */
  function OneBadStatement(truthy: bool): seq<Event>
  {
    [Call, Settle(1, true), Sql(0, Throws(truthy)), NextStatement, CallbackEnds(true)]
  }

  function AtItsEnd(truthy: bool): Runner
  {
    Runner(true, true, true, truthy, AtQueue, [Throws(truthy)], [Unsent(truthy)], Some(true), 2, map[2 := Unwritten],
           [Sent(1, Begin), Settled(1, true)], [])
  }

  lemma BeginAnswered()
    ensures Run(Fresh(), [Call, Settle(1, true)]) ==
            Runner(true, true, false, false, AtCallback, [], [], None, 1, map[], [Sent(1, Begin), Settled(1, true)], [])
  {
    RunTwice(Fresh(), [], Call, Settle(1, true));
    assert [] + [Call, Settle(1, true)] == [Call, Settle(1, true)];
    assert Start(Fresh()).pending - {1} == map[];
  }

  lemma OneBadStatementEnds(truthy: bool)
    ensures Run(Fresh(), OneBadStatement(truthy)) == AtItsEnd(truthy)
  {
    var begun, failing := [Call, Settle(1, true)], [Sql(0, Throws(truthy)), NextStatement];
    BeginAnswered();
    RunTwice(Fresh(), begun, failing[0], failing[1]);
    RunSnoc(Fresh(), begun + failing, CallbackEnds(true));
    assert begun + failing + [CallbackEnds(true)] == OneBadStatement(truthy);
  }

  lemma LatchedEndRollsBack()
    ensures Step(Step(AtItsEnd(true), QueueDrained), QueueDrained) == Send(AtItsEnd(true).(pc := AtRollback), Rollback)
  {
    assert Step(AtItsEnd(true), QueueDrained) == AtItsEnd(true).(pc := AtCatch);
  }

  /** With an ordinary error, such as that of a BigInt parameter, the statement never reaches the
      wire and the transaction is rolled back. */
  lemma UnwrittenStatementRollsBack()
    ensures var s := Run(Fresh(), OneBadStatement(true) + [QueueDrained, QueueDrained]);
            && s.log == [Sent(1, Begin), Settled(1, true), Sent(3, Rollback)]
            && s.pending == map[2 := Unwritten, 3 := Awaited(Rollback)]
  {
    OneBadStatementEnds(true);
    RunTwice(Fresh(), OneBadStatement(true), QueueDrained, QueueDrained);
    LatchedEndRollsBack();
  }

  /** With a falsy one the latch stays open and the transaction commits, although an accepted
      statement failed. */
  lemma FalsyErrorCommits()
    ensures var s := Run(Fresh(), OneBadStatement(false) + [QueueDrained]);
            && s.log == [Sent(1, Begin), Settled(1, true), Sent(3, Commit)]
            && s.writings == [Throws(false)] && s.outcomes == [Unsent(false)]
  {
    OneBadStatementEnds(false);
    RunSnoc(Fresh(), OneBadStatement(false), QueueDrained);
  }
}
