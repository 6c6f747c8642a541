/** Each transaction against the events of its run: it begins with a call, its callback runs from the
    reply to its begin to the next callback end, and its statements are exactly the calls of `tx.sql`
    with its handle in between. */
module TxRunnerSpans {
  import opened Common
  import opened TxRunner
  import opened TxRunnerTrace

  /** Where in the run a transaction began, under which request id, where its begin was answered and
      where its callback ended. */
  datatype Span = Span(call: nat, id: nat, answered: Option<nat>, ended: Option<nat>)

  /** The calls of `tx.sql` on one handle, in order. */
  function CallsOn(es: seq<Event>, handle: nat): seq<Writing>
  {
    if es == [] then []
    else
      var e := es[|es| - 1];
      CallsOn(es[..|es| - 1], handle) + if e.Sql? && e.handle == handle then [e.writing] else []
  }

  predicate IsReply(e: Event, id: nat)
  {
    e.Settle? && e.id == id
  }

  /** The call that put the begin of transaction `h` on the wire. */
  ghost predicate Opens(es: seq<Event>, h: nat, sp: Span)
  {
    && sp.call < |es| && es[sp.call] == Call
    && BeginGoesOut(Run(Fresh(), es[..sp.call]), Run(Fresh(), es[..sp.call + 1]), h, sp.id)
  }

  /** With `h` transactions finished, a begin goes out. */
  predicate BeginGoesOut(s: Runner, s': Runner, h: nat, id: nat)
  {
    |s.seen| == h && s'.log == s.log + [Sent(id, Begin)]
  }

  /** The first reply to that begin. */
  predicate Replied(es: seq<Event>, sp: Span)
  {
    match sp.answered
    case None => forall j | sp.call < j < |es| :: !IsReply(es[j], sp.id)
    case Some(a) => sp.call < a < |es| && IsReply(es[a], sp.id) && forall j | sp.call < j < a :: !IsReply(es[j], sp.id)
  }

  predicate CallbackRan(es: seq<Event>, sp: Span)
  {
    sp.answered.Some? && sp.answered.value < |es| && es[sp.answered.value].Settle? && es[sp.answered.value].ok
  }

  /** The first callback end after that reply. */
  predicate Ran(es: seq<Event>, sp: Span)
    requires CallbackRan(es, sp)
  {
    var a := sp.answered.value;
    match sp.ended
    case None => forall j | a < j < |es| :: !es[j].CallbackEnds?
    case Some(z) => a < z < |es| && es[z].CallbackEnds? && forall j | a < j < z :: !es[j].CallbackEnds?
  }

  /** What was called on the handle, and how the callback ended. */
  predicate Heard(es: seq<Event>, h: nat, sp: Span, writings: seq<Writing>, callback: Option<bool>)
  {
    if CallbackRan(es, sp) then
      && Ran(es, sp)
      && match sp.ended
         case None => callback == None && writings == CallsOn(es[sp.answered.value..], h)
         case Some(z) => callback == Some(es[z].returned) && writings == CallsOn(es[sp.answered.value..z], h)
    else
      sp.ended == None && callback == None && writings == []
  }

  ghost predicate Spanned(es: seq<Event>, h: nat, sp: Span, writings: seq<Writing>, callback: Option<bool>)
  {
    Opens(es, h, sp) && Replied(es, sp) && Heard(es, h, sp, writings, callback)
  }

  /** Nothing that fires later belongs to it. */
  predicate Over(es: seq<Event>, sp: Span)
  {
    sp.answered.Some? && (CallbackRan(es, sp) ==> sp.ended.Some?)
  }

  // ---- One step, by how far the transaction is ----

  predicate After(pc: Pc)
  {
    pc == AtQueue || pc == AtCommit || pc == AtCatch || pc == AtRollback
  }

  lemma IdleStep(s: Runner, cur: Option<Talk>, e: Event)
    requires Fits(s, cur) && s.pc == Idle
    ensures var s' := Step(s, e);
            && s'.seen == s.seen
            && if e == Call then
                 && s'.pc == AtBegin && s'.writings == [] && s'.callback == None && s'.log == s.log + [Sent(s.txSeq + 1, Begin)]
                 && s.txSeq + 1 in s'.pending && s'.pending[s.txSeq + 1] == Awaited(Begin)
               else s'.pc == Idle
  {
    if e.Settle? && e.id in s.pending && s.pending[e.id].Awaited? {
      OutSettles(s, cur, e.id);
      assert false;
    }
  }

  lemma BeginStep(s: Runner, cur: Option<Talk>, e: Event, id: nat)
    requires Fits(s, cur) && s.pc == AtBegin && id in s.pending && s.pending[id] == Awaited(Begin)
    ensures var s' := Step(s, e);
            && s'.seen == s.seen && s'.writings == s.writings == [] && s'.callback == s.callback == None
            && if IsReply(e, id) then s'.pc == if e.ok then AtCallback else AtCatch
               else s'.pc == AtBegin && id in s'.pending && s'.pending[id] == Awaited(Begin)
  {
    if e.Settle? && e.id in s.pending && s.pending[e.id].Awaited? {
      OutSettles(s, cur, e.id);
      OutSettles(s, cur, id);
    }
  }

  lemma CallbackStep(s: Runner, cur: Option<Talk>, e: Event)
    requires Fits(s, cur) && s.pc == AtCallback
    ensures var s' := Step(s, e);
            && s'.seen == s.seen
            && if e.CallbackEnds? then After(s'.pc) && s'.callback == Some(e.returned) && s'.writings == s.writings
               else
                 && s'.pc == AtCallback && s'.callback == None
                 && s'.writings == s.writings + if e.Sql? && e.handle == |s.seen| then [e.writing] else []
  {
    if e.Settle? && e.id in s.pending && s.pending[e.id].Awaited? {
      OutSettles(s, cur, e.id);
      OutTellsPc(s, cur);
    }
  }

  /** Still under way with the same record, or finished with it. */
  predicate Carried(s: Runner, s': Runner)
  {
    if After(s'.pc) then s'.seen == s.seen && s'.writings == s.writings && s'.callback == s.callback
    else
      && s'.pc == Idle && |s'.seen| == |s.seen| + 1 && s'.seen[..|s.seen|] == s.seen
      && s'.seen[|s.seen|].writings == s.writings && s'.seen[|s.seen|].callback == s.callback
  }

  lemma AfterReply(s: Runner, cur: Option<Talk>, id: nat, ok: bool)
    requires Fits(s, cur) && After(s.pc)
    ensures Carried(s, SettleRequest(s, id, ok))
  {
    if id in s.pending && s.pending[id].Awaited? {
      OutSettles(s, cur, id);
      OutTellsPc(s, cur);
    }
  }

  lemma AfterStatement(s: Runner)
    requires After(s.pc)
    ensures Carried(s, StartStatement(s))
  {
  }

  lemma AfterStep(s: Runner, cur: Option<Talk>, e: Event)
    requires Fits(s, cur) && After(s.pc)
    ensures Carried(s, Step(s, e))
  {
    match e
    case Settle(id, ok) => AfterReply(s, cur, id, ok);
    case NextStatement => AfterStatement(s);
    case _ =>
  }

  // ---- A span as the run goes on ----

  lemma OpensStays(es: seq<Event>, e: Event, h: nat, sp: Span)
    requires Opens(es, h, sp)
    ensures Opens(es + [e], h, sp)
  {
    assert (es + [e])[..sp.call] == es[..sp.call] && (es + [e])[..sp.call + 1] == es[..sp.call + 1];
  }

  lemma CallsSnoc(es: seq<Event>, e: Event, h: nat)
    ensures CallsOn(es + [e], h) == CallsOn(es, h) + if e.Sql? && e.handle == h then [e.writing] else []
  {
    assert (es + [e])[..|es|] == es;
  }

  lemma OverStays(es: seq<Event>, e: Event, h: nat, sp: Span, writings: seq<Writing>, callback: Option<bool>)
    requires Spanned(es, h, sp, writings, callback) && Over(es, sp)
    ensures Spanned(es + [e], h, sp, writings, callback) && Over(es + [e], sp)
  {
    OpensStays(es, e, h, sp);
    if CallbackRan(es, sp) {
      assert (es + [e])[sp.answered.value..sp.ended.value] == es[sp.answered.value..sp.ended.value];
    }
  }

  lemma OpensHere(es: seq<Event>, n: nat, s: Runner, s': Runner, h: nat, id: nat)
    requires n < |es| && es[n] == Call && s == Run(Fresh(), es[..n]) && s' == Run(Fresh(), es[..n + 1])
    requires BeginGoesOut(s, s', h, id)
    ensures Opens(es, h, Span(n, id, None, None))
  {
  }

  lemma SpanOpens(es: seq<Event>, s: Runner, s': Runner, h: nat, id: nat)
    requires s == Run(Fresh(), es) && s' == Run(Fresh(), es + [Call]) && BeginGoesOut(s, s', h, id)
    ensures Spanned(es + [Call], h, Span(|es|, id, None, None), [], None)
  {
    var more := es + [Call];
    assert more[..|es|] == es && more[..|es| + 1] == more;
    OpensHere(more, |es|, s, s', h, id);
  }

  lemma SpanWaits(es: seq<Event>, e: Event, h: nat, sp: Span)
    requires Spanned(es, h, sp, [], None) && sp.answered.None?
    ensures if IsReply(e, sp.id) then Spanned(es + [e], h, sp.(answered := Some(|es|)), [], None)
            else Spanned(es + [e], h, sp, [], None)
  {
    OpensStays(es, e, h, sp);
    if IsReply(e, sp.id) {
      assert (es + [e])[|es|..] == [] + [e];
      CallsSnoc([], e, h);
    }
  }

  lemma SpanTalks(es: seq<Event>, e: Event, h: nat, sp: Span, writings: seq<Writing>)
    requires Spanned(es, h, sp, writings, None) && CallbackRan(es, sp) && sp.ended.None? && !e.CallbackEnds?
    ensures Spanned(es + [e], h, sp, writings + (if e.Sql? && e.handle == h then [e.writing] else []), None)
  {
    OpensStays(es, e, h, sp);
    var a := sp.answered.value;
    assert (es + [e])[a..] == es[a..] + [e];
    CallsSnoc(es[a..], e, h);
  }

  lemma SpanEnds(es: seq<Event>, e: Event, h: nat, sp: Span, writings: seq<Writing>)
    requires Spanned(es, h, sp, writings, None) && CallbackRan(es, sp) && sp.ended.None? && e.CallbackEnds?
    ensures Spanned(es + [e], h, sp.(ended := Some(|es|)), writings, Some(e.returned))
  {
    OpensStays(es, e, h, sp);
    assert (es + [e])[sp.answered.value..|es|] == es[sp.answered.value..];
  }

  // ---- Every run ----

  ghost predicate Finished(es: seq<Event>, seen: seq<Seen>, spans: seq<Span>)
  {
    |seen| <= |spans| && forall i | 0 <= i < |seen| :: Spanned(es, i, spans[i], seen[i].writings, seen[i].callback) && Over(es, spans[i])
  }

  /** The span of the transaction in progress is as far as the function is. */
  ghost predicate UnderWay(es: seq<Event>, s: Runner, sp: Span)
  {
    && Spanned(es, |s.seen|, sp, s.writings, s.callback)
    && (s.pc == AtBegin ==> sp.answered.None? && s.writings == [] && s.callback.None? && sp.id in s.pending && s.pending[sp.id] == Awaited(Begin))
    && (s.pc == AtCallback ==> CallbackRan(es, sp) && sp.ended.None?)
    && (After(s.pc) ==> Over(es, sp))
  }

  ghost predicate Reckoned(es: seq<Event>, s: Runner, spans: seq<Span>)
  {
    && |spans| == |s.seen| + (if s.pc == Idle then 0 else 1)
    && Finished(es, s.seen, spans)
    && (s.pc != Idle ==> UnderWay(es, s, spans[|s.seen|]))
  }

  lemma FinishedStays(es: seq<Event>, e: Event, seen: seq<Seen>, spans: seq<Span>)
    requires Finished(es, seen, spans)
    ensures Finished(es + [e], seen, spans)
  {
    forall i | 0 <= i < |seen| ensures Spanned(es + [e], i, spans[i], seen[i].writings, seen[i].callback) && Over(es + [e], spans[i]) {
      OverStays(es, e, i, spans[i], seen[i].writings, seen[i].callback);
    }
  }

  lemma UnderWayGoesOn(es: seq<Event>, e: Event, s: Runner, cur: Option<Talk>, sp: Span) returns (sp': Span)
    requires Fits(s, cur) && s.pc != Idle && UnderWay(es, s, sp)
    ensures var s' := Step(s, e);
            if s'.pc != Idle then s'.seen == s.seen && UnderWay(es + [e], s', sp')
            else
              && |s'.seen| == |s.seen| + 1 && s'.seen[..|s.seen|] == s.seen && Over(es + [e], sp')
              && Spanned(es + [e], |s.seen|, sp', s'.seen[|s.seen|].writings, s'.seen[|s.seen|].callback)
  {
    sp' := sp;
    if s.pc == AtBegin {
      BeginStep(s, cur, e, sp.id);
      SpanWaits(es, e, |s.seen|, sp);
      if IsReply(e, sp.id) { sp' := sp.(answered := Some(|es|)); }
    } else if s.pc == AtCallback {
      CallbackStep(s, cur, e);
      if e.CallbackEnds? {
        sp' := sp.(ended := Some(|es|));
        SpanEnds(es, e, |s.seen|, sp, s.writings);
      } else {
        SpanTalks(es, e, |s.seen|, sp, s.writings);
      }
    } else {
      AfterStep(s, cur, e);
      OverStays(es, e, |s.seen|, sp, s.writings, s.callback);
    }
  }

  lemma StepReckoned(es: seq<Event>, e: Event, cur: Option<Talk>, spans: seq<Span>) returns (spans': seq<Span>)
    requires Fits(Run(Fresh(), es), cur) && Reckoned(es, Run(Fresh(), es), spans)
    ensures Reckoned(es + [e], Run(Fresh(), es + [e]), spans')
  {
    var s, s' := Run(Fresh(), es), Run(Fresh(), es + [e]);
    RunSnoc(Fresh(), es, e);
    FinishedStays(es, e, s.seen, spans);
    spans' := spans;
    if s.pc == Idle {
      IdleStep(s, cur, e);
      if e == Call {
        SpanOpens(es, s, s', |s.seen|, s.txSeq + 1);
        spans' := spans + [Span(|es|, s.txSeq + 1, None, None)];
      }
    } else {
      var sp' := UnderWayGoesOn(es, e, s, cur, spans[|s.seen|]);
      spans' := spans[..|s.seen|] + [sp'];
    }
  }

  lemma {:induction false} RunReckoned(es: seq<Event>) returns (spans: seq<Span>)
    ensures Reckoned(es, Run(Fresh(), es), spans)
    decreases |es|
  {
    if es == [] {
      spans := [];
    } else {
      var init, e := es[..|es| - 1], es[|es| - 1];
      assert es == init + [e];
      var before := RunReckoned(init);
      var past, cur := TransactionTrace(init);
      spans := StepReckoned(init, e, cur, before);
    }
  }

  /** For every run: each transaction, finished or in progress, has its call, the first reply to its
      begin and the first callback end behind that, and its accepted statements are exactly the calls
      on its handle between the two, in order. */
  lemma StatementsAreTheCalls(es: seq<Event>, s: Runner) returns (spans: seq<Span>)
    requires s == Run(Fresh(), es)
    ensures |spans| == |s.seen| + (if s.pc == Idle then 0 else 1)
    ensures forall i | 0 <= i < |s.seen| :: Spanned(es, i, spans[i], s.seen[i].writings, s.seen[i].callback) && Over(es, spans[i])
    ensures s.pc != Idle ==> Spanned(es, |s.seen|, spans[|s.seen|], s.writings, s.callback)
  {
    spans := RunReckoned(es);
  }
}
