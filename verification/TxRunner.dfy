/** The worker side of a callback transaction: the asynchronous function behind
    `ctx.transaction`, its promise queue and the requests it puts on the wire.  One step is one
    turn of the event loop; replies, timeouts and calls of `tx.sql` interleave freely. */
module TxRunner {
  import opened Common

  datatype Body = Begin | Exec(k: nat) | Commit | Rollback

  /** What passes between the worker and Core: a request goes out, or it settles by a reply or
      by its timeout. */
  datatype Entry = Sent(id: nat, body: Body) | Settled(id: nat, ok: bool)

  /** An entry of the map of pending requests.  A request whose message could not be written, because
      one of its values does not serialize, has been entered all the same and stays until its timer. */
  datatype Pending = Awaited(body: Body) | Unwritten

  /** What became of one accepted statement.  `Unsent` failed before its message was written, with
      an error that is truthy or not: only a truthy one sets the latch `firstSqlError`. */
  datatype Outcome = Succeeded | Refused | Unsent(truthy: bool) | Skipped

  /** How a statement's message turns out when its turn comes: it serializes, or serializing its
      parameters throws. */
  datatype Writing = Written | Throws(truthy: bool)

  /** Where the asynchronous function is suspended. */
  datatype Pc = Idle | AtBegin | AtCallback | AtQueue | AtCommit | AtCatch | AtRollback

  /** What the caller of one transaction saw of it: the statements that were accepted, by how their
      messages turn out, and what became of each, whether the callback returned or threw (`None` if
      it never ran), and whether the call resolved. */
  datatype Seen = Seen(writings: seq<Writing>, outcomes: seq<Outcome>, callback: Option<bool>, resolved: bool)

  /** The state of one invocation.  `writings` has one entry for every promise chained on `queue` and
      `outcomes` one for those that settled; the one after the settled ones is the only one that may
      be running. */
  datatype Runner = Runner(
    active: bool,
    open: bool,
    closed: bool,
    failed: bool,
    pc: Pc,
    writings: seq<Writing>,
    outcomes: seq<Outcome>,
    callback: Option<bool>,
    txSeq: nat,
    pending: map<nat, Pending>,
    log: seq<Entry>,
    seen: seq<Seen>)

  datatype Event =
    | Call
    | Sql(handle: nat, writing: Writing)
    | NextStatement
    | Settle(id: nat, ok: bool)
    | CallbackEnds(returned: bool)
    | QueueDrained
    | OtherRequest

  function Fresh(): Runner
  {
    Runner(false, false, false, false, Idle, [], [], None, 0, map[], [], [])
  }

  function Send(s: Runner, body: Body): Runner
  {
    var id := s.txSeq + 1;
    s.(txSeq := id, pending := s.pending[id := Awaited(body)], log := s.log + [Sent(id, body)])
  }

  /** The request is registered, then writing it throws: nothing goes out. */
  function FailToSend(s: Runner, truthy: bool): Runner
  {
    var id := s.txSeq + 1;
    s.(txSeq := id, pending := s.pending[id := Unwritten], outcomes := s.outcomes + [Unsent(truthy)], failed := s.failed || truthy)
  }

  predicate InFlight(s: Runner)
  {
    exists id :: id in s.pending && s.pending[id].Awaited? && s.pending[id].body.Exec?
  }

  function Finish(s: Runner, resolved: bool): Runner
  {
    s.(active := false, pc := Idle, seen := s.seen + [Seen(s.writings, s.outcomes, s.callback, resolved)])
  }

  /** The handle given to the callback is good from the callback's start until `closed`. */
  predicate Accepts(s: Runner, handle: nat)
  {
    handle == |s.seen| && s.pc != Idle && s.pc != AtBegin && !s.closed
  }

  predicate CanStartStatement(s: Runner)
  {
    s.pc != Idle && |s.outcomes| < |s.writings| && !InFlight(s)
  }

  function Entered(s: Runner): Runner
  {
    s.(active := true, open := false, closed := false, failed := false, pc := AtBegin,
       writings := [], outcomes := [], callback := None)
  }

  function Start(s: Runner): Runner
  {
    if s.active then s else Send(Entered(s), Begin)
  }

  function StartStatement(s: Runner): Runner
  {
    if !CanStartStatement(s) then s
    else if s.failed then s.(outcomes := s.outcomes + [Skipped])
    else
      match s.writings[|s.outcomes|]
      case Written => Send(s, Exec(|s.outcomes|))
      case Throws(truthy) => FailToSend(s, truthy)
  }

  /** How the function goes on behind a request that settled. */
  function Resumed(s: Runner, body: Body, ok: bool): Runner
  {
    match body
    case Begin => if ok then s.(open := true, pc := AtCallback) else s.(closed := true, pc := AtCatch)
    case Exec(_) => s.(outcomes := s.outcomes + [if ok then Succeeded else Refused], failed := s.failed || !ok)
    case Commit => if ok then Finish(s, true) else s.(closed := true, pc := AtCatch)
    case Rollback => Finish(s, false)
  }

  /** A request settles once: a reply or a timeout that finds no entry changes nothing, and the
      timer of a request that was never written only clears its entry. */
  function SettleRequest(s: Runner, id: nat, ok: bool): Runner
  {
    if id !in s.pending then s
    else if s.pending[id].Unwritten? then s.(pending := s.pending - {id})
    else Resumed(s.(pending := s.pending - {id}, log := s.log + [Settled(id, ok)]), s.pending[id].body, ok)
  }

  function EndCallback(s: Runner, returned: bool): Runner
  {
    if s.pc != AtCallback then s
    else s.(closed := true, callback := Some(returned), pc := if returned then AtQueue else AtCatch)
  }

  function DrainQueue(s: Runner): Runner
  {
    if |s.outcomes| != |s.writings| then s
    else if s.pc == AtQueue then
      if s.failed then s.(closed := true, pc := AtCatch)
      else Send(s.(open := false, pc := AtCommit), Commit)
    else if s.pc == AtCatch then
      if s.open then Send(s.(pc := AtRollback), Rollback)
      else Finish(s, false)
    else s
  }

  function Step(s: Runner, e: Event): Runner
  {
    match e
    case Call => Start(s)
    case Sql(handle, writing) => if Accepts(s, handle) then s.(writings := s.writings + [writing]) else s
    case NextStatement => StartStatement(s)
    case Settle(id, ok) => SettleRequest(s, id, ok)
    case CallbackEnds(returned) => EndCallback(s, returned)
    case QueueDrained => DrainQueue(s)
    case OtherRequest => s.(txSeq := s.txSeq + 1)
  }

  function Run(s: Runner, es: seq<Event>): Runner
  {
    if es == [] then s else Step(Run(s, es[..|es| - 1]), es[|es| - 1])
  }

  // ---- What becomes of the accepted statements ----

  /** Does this outcome set the latch? */
  predicate Latches(o: Outcome)
  {
    o.Refused? || (o.Unsent? && o.truthy)
  }

  predicate Latched(os: seq<Outcome>)
  {
    os != [] && (Latched(os[..|os| - 1]) || Latches(os[|os| - 1]))
  }

  /** A statement is skipped exactly when the latch was set before its turn. */
  predicate Orderly(os: seq<Outcome>)
  {
    os == [] || (Orderly(os[..|os| - 1]) && (os[|os| - 1].Skipped? <==> Latched(os[..|os| - 1])))
  }

  /** Is this what becomes of a statement whose message turns out so, or was it skipped? */
  predicate Turned(w: Writing, o: Outcome)
  {
    o.Skipped? || if w.Written? then o.Succeeded? || o.Refused? else o == Unsent(w.truthy)
  }

  predicate Followed(ws: seq<Writing>, os: seq<Outcome>)
  {
    |os| <= |ws| && forall i | 0 <= i < |os| :: Turned(ws[i], os[i])
  }

  /** A statement that reached Core: its place in call order and Core's answer. */
  datatype Answer = Answer(k: nat, ok: bool)

  function Answers(os: seq<Outcome>): seq<Answer>
  {
    if os == [] then []
    else
      var n := |os| - 1;
      Answers(os[..n]) +
      match os[n] {
        case Succeeded => [Answer(n, true)]
        case Refused => [Answer(n, false)]
        case _ => []
      }
  }

  // ---- The shape of a conversation ----

  /** A request and what became of it. */
  datatype Exchange = Exchange(id: nat, body: Body, reply: Option<bool>)

  /** One transaction on the wire: its begin, the statements that were answered, and behind them
      either a statement that is still out or the end. */
  datatype Talk = Talk(begin: Exchange, statements: seq<Exchange>, last: Option<Exchange>)

  function SpellOne(x: Exchange): seq<Entry>
  {
    [Sent(x.id, x.body)] + if x.reply.Some? then [Settled(x.id, x.reply.value)] else []
  }

  function Spell(xs: seq<Exchange>): seq<Entry>
  {
    if xs == [] then [] else Spell(xs[..|xs| - 1]) + SpellOne(xs[|xs| - 1])
  }

  function SpellTalk(c: Talk): seq<Entry>
  {
    SpellOne(c.begin) + Spell(c.statements) + if c.last.Some? then SpellOne(c.last.value) else []
  }

  function Tale(past: seq<Talk>): seq<Entry>
  {
    if past == [] then [] else Tale(past[..|past| - 1]) + SpellTalk(past[|past| - 1])
  }

  /** Request ids grow, between `after` and `upTo`. */
  predicate Increasing(xs: seq<Exchange>, after: nat, upTo: nat)
  {
    if xs == [] then after <= upTo
    else var last := xs[|xs| - 1]; 0 < last.id <= upTo && Increasing(xs[..|xs| - 1], after, last.id - 1)
  }

  predicate Ordered(c: Talk, after: nat, upTo: nat)
  {
    && after < c.begin.id
    && if c.last.Some? then 0 < c.last.value.id <= upTo && Increasing(c.statements, c.begin.id, c.last.value.id - 1)
       else Increasing(c.statements, c.begin.id, upTo)
  }

  /** One exchange per answer, in order. */
  predicate Carries(xs: seq<Exchange>, answers: seq<Answer>)
  {
    if xs == [] then answers == []
    else
      && answers != []
      && var x, a := xs[|xs| - 1], answers[|answers| - 1];
         x.body == Exec(a.k) && x.reply == Some(a.ok) && Carries(xs[..|xs| - 1], answers[..|answers| - 1])
  }

  /** One finished transaction.  A begin that fails is the whole conversation.  Otherwise the
      statements that reached Core follow, in call order, and then exactly one end: a commit if and
      only if the callback returned and no accepted statement failed with an error the latch can
      hold. */
  predicate WholeRun(c: Talk, seen: Seen)
  {
    && c.begin.body == Begin && c.begin.reply.Some?
    && if !c.begin.reply.value then c.statements == [] && c.last.None? && seen == Seen([], [], None, false)
       else
         && |seen.outcomes| == |seen.writings| && Followed(seen.writings, seen.outcomes) && Orderly(seen.outcomes) && Carries(c.statements, Answers(seen.outcomes))
         && seen.callback.Some? && c.last.Some? && c.last.value.reply.Some?
         && c.last.value.body == (if seen.callback.value && !Latched(seen.outcomes) then Commit else Rollback)
         && seen.resolved == (c.last.value.body == Commit && c.last.value.reply.value)
  }

  /** The outcomes so far, the latch, and the statements on the wire. */
  predicate Book(s: Runner, c: Talk)
  {
    && Followed(s.writings, s.outcomes) && Orderly(s.outcomes) && (s.failed <==> Latched(s.outcomes))
    && c.begin.body == Begin && c.begin.reply == Some(true) && Carries(c.statements, Answers(s.outcomes))
  }

  /** While statements may run, at most the next one is out. */
  predicate Queue(s: Runner, c: Talk)
  {
    && Book(s, c)
    && (c.last.Some? ==> !s.failed && |s.outcomes| < |s.writings| && s.writings[|s.outcomes|].Written? && c.last.value.body == Exec(|s.outcomes|) && c.last.value.reply.None?)
  }

  predicate Ending(s: Runner, c: Talk, body: Body, reply: Option<bool>)
  {
    && Book(s, c) && |s.outcomes| == |s.writings|
    && c.last.Some? && c.last.value.body == body && c.last.value.reply == reply
    && s.callback.Some? && (body == Commit <==> s.callback.value && !s.failed)
  }

  predicate NothingYet(s: Runner, c: Talk)
  {
    s.writings == [] && s.outcomes == [] && s.callback.None? && c.statements == [] && c.last.None?
  }

  predicate Caught(s: Runner, c: Talk)
  {
    if s.open then Queue(s, c) && (s.callback == Some(false) || (s.callback == Some(true) && s.failed))
    else
      || (c.begin.body == Begin && c.begin.reply == Some(false) && NothingYet(s, c))
      || Ending(s, c, Commit, Some(false))
  }

  /** The transaction in progress, up to where the function is suspended. */
  predicate Unfinished(s: Runner, cur: Option<Talk>)
  {
    if s.pc == Idle then cur.None? && !s.active
    else
      s.active && cur.Some? &&
      var c := cur.value;
      match s.pc
      case AtBegin => !s.open && !s.closed && !s.failed && NothingYet(s, c) && c.begin.body == Begin && c.begin.reply.None?
      case AtCallback => s.open && !s.closed && s.callback.None? && Queue(s, c)
      case AtQueue => s.open && s.closed && s.callback == Some(true) && Queue(s, c)
      case AtCommit => !s.open && s.closed && Ending(s, c, Commit, None)
      case AtRollback => s.open && s.closed && Ending(s, c, Rollback, None)
      case AtCatch => s.closed && Caught(s, c)
      case Idle => false
  }

  /** The requests that were written and have not settled. */
  function Outstanding(pending: map<nat, Pending>): map<nat, Body>
  {
    map id | id in pending && pending[id].Awaited? :: pending[id].body
  }

  /** The request of a conversation that is still out, if there is one. */
  function Out(cur: Option<Talk>): Option<Exchange>
  {
    if cur.None? then None
    else if cur.value.begin.reply.None? then Some(cur.value.begin)
    else if cur.value.last.Some? && cur.value.last.value.reply.None? then cur.value.last
    else None
  }

  /** At most one request is ever outstanding, and it is the last one sent. */
  predicate PendingIsOut(s: Runner, cur: Option<Talk>)
  {
    && (forall id | id in s.pending :: id <= s.txSeq)
    && Outstanding(s.pending) == match Out(cur) case None => map[] case Some(x) => map[x.id := x.body]
  }

  /** The id of the last request of the finished transactions. */
  function Mark(past: seq<Talk>): nat
  {
    if past == [] then 0
    else
      var c := past[|past| - 1];
      if c.last.Some? then c.last.value.id else c.begin.id
  }

  /** Every finished transaction is a whole one, and ids grow from each to the next. */
  predicate Chronicle(past: seq<Talk>, seen: seq<Seen>)
  {
    if past == [] then seen == []
    else
      && seen != []
      && var init, c := past[..|past| - 1], past[|past| - 1];
         WholeRun(c, seen[|seen| - 1]) && Ordered(c, Mark(init), Mark(past)) && Chronicle(init, seen[..|seen| - 1])
  }

  /** The log is the finished transactions one after the other, then the one in progress. */
  predicate Told(log: seq<Entry>, seen: seq<Seen>, txSeq: nat, past: seq<Talk>, cur: Option<Talk>)
  {
    && Chronicle(past, seen) && Mark(past) <= txSeq
    && log == Tale(past) + (if cur.Some? then SpellTalk(cur.value) else [])
    && (cur.Some? ==> Ordered(cur.value, Mark(past), txSeq))
  }

  predicate Tells(s: Runner, past: seq<Talk>, cur: Option<Talk>)
  {
    Told(s.log, s.seen, s.txSeq, past, cur) && PendingIsOut(s, cur) && Unfinished(s, cur)
  }
}
