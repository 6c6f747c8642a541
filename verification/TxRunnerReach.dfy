/** Everything the runner may show of a transaction it can show: the shapes of the trace theorem are
    exactly what the runs reach. */
module TxRunnerReach {
  import opened Common
  import opened TxRunner
  import opened TxRunnerTrace

  /** What a caller may see: the begin was refused; or every accepted statement came out as its
      parameters and the latch decide, and the call resolved only if the callback returned with
      nothing latched. */
  predicate Possible(w: Seen)
  {
    || w == Seen([], [], None, false)
    || (&& |w.outcomes| == |w.writings| && Followed(w.writings, w.outcomes) && Orderly(w.outcomes) && w.callback.Some?
        && (w.resolved ==> w.callback.value && !Latched(w.outcomes)))
  }

  /** Nothing that went out is unanswered. */
  predicate Quiet(s: Runner)
  {
    forall id | id in s.pending :: id <= s.txSeq && s.pending[id].Unwritten?
  }

  predicate AtRest(s: Runner, seen: seq<Seen>)
  {
    s.pc == Idle && !s.active && s.seen == seen && Quiet(s)
  }

  /** In the callback, with every call of `tx.sql` so far settled. */
  predicate Midway(s: Runner, seen: seq<Seen>, ws: seq<Writing>, os: seq<Outcome>)
  {
    && s.pc == AtCallback && s.active && s.open && !s.closed && s.callback.None? && s.seen == seen && Quiet(s)
    && s.writings == ws && s.outcomes == os && |os| == |ws| && (s.failed <==> Latched(os))
  }

  /** A request is sent and answered. */
  lemma Exchanged(s: Runner, body: Body, ok: bool)
    requires Quiet(s)
    ensures var out := Send(s, body);
            SettleRequest(out, s.txSeq + 1, ok) == Resumed(out.(pending := s.pending, log := out.log + [Settled(s.txSeq + 1, ok)]), body, ok)
  {
    var out := Send(s, body);
    assert out.pending - {s.txSeq + 1} == s.pending;
  }

  ghost predicate Goes(states: seq<Runner>, es: seq<Event>, i: nat)
  {
    i < |es| && i + 1 < |states| && states[i + 1] == Step(states[i], es[i])
  }

  ghost predicate Path(states: seq<Runner>, es: seq<Event>)
  {
    |states| == |es| + 1 && forall i: nat | i < |es| :: Goes(states, es, i)
  }

  /** The events take the runner from one state to the other. */
  ghost predicate Leads(s: Runner, es: seq<Event>, s': Runner)
  {
    exists states :: Path(states, es) && states[0] == s && states[|es|] == s'
  }

  lemma LeadsNowhere(s: Runner)
    ensures Leads(s, [], s)
  {
    assert Path([s], []);
  }

  lemma LeadsOn(s: Runner, a: seq<Event>, s1: Runner, b: seq<Event>, s2: Runner)
    requires Leads(s, a, s1) && Leads(s1, b, s2)
    ensures Leads(s, a + b, s2)
  {
    var x :| Path(x, a) && x[0] == s && x[|a|] == s1;
    var y :| Path(y, b) && y[0] == s1 && y[|b|] == s2;
    var all := x + y[1..];
    forall i: nat | i < |a + b| ensures Goes(all, a + b, i) {
      if i < |a| { assert Goes(x, a, i); } else { assert Goes(y, b, i - |a|); }
    }
    assert Path(all, a + b);
  }

  lemma LeadsOne(s: Runner, e: Event, s': Runner)
    requires s' == Step(s, e)
    ensures Leads(s, [e], s')
  {
    assert Goes([s, s'], [e], 0);
    assert Path([s, s'], [e]);
  }

  lemma RunOnce(s: Runner, es: seq<Event>, k: nat, x: Runner)
    requires k < |es| && Run(s, es[..k]) == x
    ensures Run(s, es[..k + 1]) == Step(x, es[k])
  {
    assert es[..k + 1] == es[..k] + [es[k]];
    RunSnoc(s, es[..k], es[k]);
  }

  lemma {:induction false} PathRuns(states: seq<Runner>, es: seq<Event>, k: nat)
    requires Path(states, es) && k <= |es|
    ensures Run(states[0], es[..k]) == states[k]
    decreases k
  {
    if k > 0 {
      PathRuns(states, es, k - 1);
      RunOnce(states[0], es, k - 1, states[k - 1]);
      assert Goes(states, es, k - 1);
    }
  }

  lemma LeadsRuns(s: Runner, es: seq<Event>, s': Runner)
    requires Leads(s, es, s')
    ensures Run(s, es) == s'
  {
    var states :| Path(states, es) && states[0] == s && states[|es|] == s';
    PathRuns(states, es, |es|);
    assert es[..|es|] == es;
  }

  lemma LeadsTwo(s: Runner, e: Event, s1: Runner, f: Event, s2: Runner)
    requires s1 == Step(s, e) && s2 == Step(s1, f)
    ensures Leads(s, [e, f], s2)
  {
    LeadsOne(s, e, s1);
    LeadsOne(s1, f, s2);
    LeadsOn(s, [e], s1, [f], s2);
    assert [e] + [f] == [e, f];
  }

  /** One event more. */
  lemma LeadsMore(s: Runner, es: seq<Event>, s1: Runner, e: Event) returns (more: seq<Event>, s2: Runner)
    requires Leads(s, es, s1)
    ensures s2 == Step(s1, e) && Leads(s, more, s2)
  {
    s2 := Step(s1, e);
    LeadsOne(s1, e, s2);
    LeadsOn(s, es, s1, [e], s2);
    more := es + [e];
  }

  lemma BeginsWith(s: Runner, ok: bool) returns (es: seq<Event>, s': Runner)
    requires AtRest(s, s.seen)
    ensures Leads(s, es, s')
    ensures ok ==> Midway(s', s.seen, [], [])
    ensures !ok ==> AtRest(s', s.seen + [Seen([], [], None, false)])
  {
    var called := Step(s, Call);
    s' := Step(called, Settle(s.txSeq + 1, ok));
    Exchanged(Entered(s), Begin, ok);
    es := [Call, Settle(s.txSeq + 1, ok)];
    LeadsTwo(s, Call, called, Settle(s.txSeq + 1, ok), s');
    if !ok { es, s' := LeadsMore(s, es, s', QueueDrained); }
  }

  lemma LatchGrows(os: seq<Outcome>, o: Outcome)
    ensures Latched(os + [o]) <==> Latched(os) || Latches(o)
  {
    assert (os + [o])[..|os|] == os;
  }

  lemma StatementStarts(s: Runner, ws: seq<Writing>, os: seq<Outcome>, w: Writing)
    requires Midway(s, s.seen, ws, os)
    ensures Step(s, Sql(|s.seen|, w)) == s.(writings := ws + [w])
    ensures !InFlight(s.(writings := ws + [w])) && CanStartStatement(s.(writings := ws + [w]))
  {
  }

  /** One more statement, called and settled as it may turn out. */
  lemma StatementComesOut(s: Runner, ws: seq<Writing>, os: seq<Outcome>, w: Writing, o: Outcome) returns (es: seq<Event>, s': Runner)
    requires Midway(s, s.seen, ws, os) && Turned(w, o) && (o.Skipped? <==> Latched(os))
    ensures Leads(s, es, s') && Midway(s', s.seen, ws + [w], os + [o])
  {
    var called := s.(writings := ws + [w]);
    StatementStarts(s, ws, os, w);
    LatchGrows(os, o);
    s' := Step(called, NextStatement);
    es := [Sql(|s.seen|, w), NextStatement];
    LeadsTwo(s, Sql(|s.seen|, w), called, NextStatement, s');
    if o.Succeeded? || o.Refused? {
      Exchanged(called, Exec(|os|), o.Succeeded?);
      es, s' := LeadsMore(s, es, s', Settle(s.txSeq + 1, o.Succeeded?));
    }
  }

  lemma OrderlyPrefix(ws: seq<Writing>, os: seq<Outcome>)
    requires os != [] && |os| == |ws| && Followed(ws, os) && Orderly(os)
    ensures var n := |os| - 1;
            Followed(ws[..n], os[..n]) && Orderly(os[..n]) && Turned(ws[n], os[n]) && (os[n].Skipped? <==> Latched(os[..n]))
  {
  }

  lemma OneMoreStatement(s: Runner, init: seq<Event>, s1: Runner, ws: seq<Writing>, os: seq<Outcome>, w: Writing, o: Outcome)
    returns (es: seq<Event>, s2: Runner)
    requires Leads(s, init, s1) && s1.seen == s.seen && Midway(s1, s.seen, ws, os) && Turned(w, o) && (o.Skipped? <==> Latched(os))
    ensures Leads(s, es, s2) && Midway(s2, s.seen, ws + [w], os + [o])
  {
    var last;
    last, s2 := StatementComesOut(s1, ws, os, w, o);
    LeadsOn(s, init, s1, last, s2);
    es := init + last;
  }

  lemma LastBack<T>(s: seq<T>)
    requires s != []
    ensures s[..|s| - 1] + [s[|s| - 1]] == s
  {
  }

  lemma {:induction false} StatementsComeOut(s: Runner, ws: seq<Writing>, os: seq<Outcome>) returns (es: seq<Event>, s': Runner)
    requires Midway(s, s.seen, [], []) && |os| == |ws| && Followed(ws, os) && Orderly(os)
    ensures Leads(s, es, s') && Midway(s', s.seen, ws, os)
    decreases |ws|
  {
    if ws == [] {
      es, s' := [], s;
      LeadsNowhere(s);
    } else {
      var n := |ws| - 1;
      OrderlyPrefix(ws, os);
      var init, s1 := StatementsComeOut(s, ws[..n], os[..n]);
      es, s' := OneMoreStatement(s, init, s1, ws[..n], os[..n], ws[n], os[n]);
      LastBack(ws);
      LastBack(os);
    }
  }

  /** The callback has returned and the commit is out. */
  lemma CommitIsOut(s: Runner) returns (es: seq<Event>, out: Runner)
    requires Midway(s, s.seen, s.writings, s.outcomes) && !Latched(s.outcomes)
    ensures Leads(s, es, out) && out == Send(s.(closed := true, callback := Some(true), pc := AtCommit, open := false), Commit)
  {
    var ended := Step(s, CallbackEnds(true));
    out := Step(ended, QueueDrained);
    LeadsTwo(s, CallbackEnds(true), ended, QueueDrained, out);
    es := [CallbackEnds(true), QueueDrained];
  }

  lemma CommitComesOut(s: Runner, resolved: bool) returns (es: seq<Event>, s': Runner)
    requires Midway(s, s.seen, s.writings, s.outcomes) && !Latched(s.outcomes)
    ensures Leads(s, es, s') && AtRest(s', s.seen + [Seen(s.writings, s.outcomes, Some(true), resolved)])
  {
    var out;
    es, out := CommitIsOut(s);
    Exchanged(s.(closed := true, callback := Some(true), pc := AtCommit, open := false), Commit, resolved);
    es, s' := LeadsMore(s, es, out, Settle(s.txSeq + 1, resolved));
    if !resolved { es, s' := LeadsMore(s, es, s', QueueDrained); }
  }

  /** The callback is over and the rollback is out. */
  lemma RollbackIsOut(s: Runner, returned: bool) returns (es: seq<Event>, out: Runner)
    requires Midway(s, s.seen, s.writings, s.outcomes) && (!returned || Latched(s.outcomes))
    ensures Leads(s, es, out) && out == Send(s.(closed := true, callback := Some(returned), pc := AtRollback), Rollback)
  {
    var ended := Step(s, CallbackEnds(returned));
    out := Step(ended, QueueDrained);
    LeadsTwo(s, CallbackEnds(returned), ended, QueueDrained, out);
    es := [CallbackEnds(returned), QueueDrained];
    if returned {
      assert out == s.(closed := true, callback := Some(true), pc := AtCatch);
      es, out := LeadsMore(s, es, out, QueueDrained);
    }
  }

  lemma RollbackComesOut(s: Runner, returned: bool) returns (es: seq<Event>, s': Runner)
    requires Midway(s, s.seen, s.writings, s.outcomes) && (!returned || Latched(s.outcomes))
    ensures Leads(s, es, s') && AtRest(s', s.seen + [Seen(s.writings, s.outcomes, Some(returned), false)])
  {
    var out;
    es, out := RollbackIsOut(s, returned);
    Exchanged(s.(closed := true, callback := Some(returned), pc := AtRollback), Rollback, true);
    es, s' := LeadsMore(s, es, out, Settle(s.txSeq + 1, true));
  }

  lemma OneMore(s: Runner, w: Seen) returns (es: seq<Event>, s': Runner)
    requires AtRest(s, s.seen) && Possible(w)
    ensures Leads(s, es, s') && AtRest(s', s.seen + [w])
  {
    if w == Seen([], [], None, false) {
      es, s' := BeginsWith(s, false);
    } else {
      var begun, s1 := BeginsWith(s, true);
      var talked, s2 := StatementsComeOut(s1, w.writings, w.outcomes);
      LeadsOn(s, begun, s1, talked, s2);
      var ended;
      if w.callback.value && !Latched(w.outcomes) {
        ended, s' := CommitComesOut(s2, w.resolved);
      } else {
        ended, s' := RollbackComesOut(s2, w.callback.value);
      }
      LeadsOn(s, begun + talked, s2, ended, s');
      es := begun + talked + ended;
    }
  }

  lemma {:induction false} Reached(ws: seq<Seen>) returns (es: seq<Event>, s': Runner)
    requires forall w | w in ws :: Possible(w)
    ensures Leads(Fresh(), es, s') && AtRest(s', ws)
    decreases |ws|
  {
    es, s' := [], Fresh();
    LeadsNowhere(Fresh());
    if ws != [] {
      var n := |ws| - 1;
      var init, s1 := Reached(ws[..n]);
      var last, s2 := OneMore(s1, ws[n]);
      LeadsOn(Fresh(), init, s1, last, s2);
      es, s' := init + last, s2;
      assert ws == ws[..n] + [ws[n]];
    }
  }

  lemma SeenIsPossible(es: seq<Event>, i: nat)
    requires i < |Run(Fresh(), es).seen|
    ensures Possible(Run(Fresh(), es).seen[i])
  {
    var past, cur := TransactionTrace(es);
    ChronicleLength(past, Run(Fresh(), es).seen);
    ChronicleAt(past, Run(Fresh(), es).seen, i);
  }

  /** The transactions some run shows its callers are exactly the lists of possible ones. */
  lemma SeenIff(ws: seq<Seen>)
    ensures (exists es :: Run(Fresh(), es).seen == ws) <==> (forall w | w in ws :: Possible(w))
  {
    if es :| Run(Fresh(), es).seen == ws {
      forall w | w in ws ensures Possible(w) {
        var i :| 0 <= i < |ws| && ws[i] == w;
        SeenIsPossible(es, i);
      }
    }
    if forall w | w in ws :: Possible(w) {
      var es, s := Reached(ws);
      LeadsRuns(Fresh(), es, s);
      assert Run(Fresh(), es).seen == ws;
    }
  }
}
