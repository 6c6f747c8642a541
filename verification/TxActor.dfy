/** The database actor behind one governed transaction, and its lifecycle latch.

    The actor owns the PostgreSQL transaction.  The supervisor talks to it through a
    bounded command queue and through one atomic phase, on which cancellation and the
    start of finalization race: whoever moves the phase away from `Active` first wins. */
module TxActor {

  datatype Phase = Active | Finalizing | CancelRequested | Finished

  datatype Command = Exec | Poison | Commit | Rollback

  /** Where the actor is in its own loop.  `Settled` is the fate of the PostgreSQL transaction. */
  datatype Stage = Serving | Committing | Settled(committed: bool)

  datatype Actor = Actor(phase: Phase, queue: seq<Command>, failed: bool, stage: Stage)

  const QUEUE_CAPACITY := 8

  const Fresh := Actor(Active, [], false, Serving)

  /** Compare-and-swap of `Active` for `CancelRequested`; a no-op once anything else won. */
  function Cancel(a: Actor): Actor
  {
    if a.phase == Active then a.(phase := CancelRequested) else a
  }

  /** What the actor does next.  `CommitReturns(took)` lets a COMMIT that was sent end either
      way, whatever error the client saw. */
  datatype Move =
    | ObserveCancel
    | Deadline
    | TakeExec(ok: bool)
    | TakePoison
    | TakeCommit
    | CommitReturns(took: bool)
    | TakeRollback
    | ChannelClosed
    | Finish

  predicate Takes(a: Actor, c: Command)
  {
    a.stage == Serving && |a.queue| > 0 && a.queue[0] == c
  }

  predicate Can(a: Actor, m: Move)
  {
    match m
    case ObserveCancel => a.stage == Serving && a.phase == CancelRequested
    case Deadline => a.stage == Serving
    case TakeExec(_) => Takes(a, Exec)
    case TakePoison => Takes(a, Poison)
    case TakeCommit => Takes(a, Commit)
    case CommitReturns(_) => a.stage == Committing
    case TakeRollback => Takes(a, Rollback)
    case ChannelClosed => a.stage == Serving && a.queue == []
    case Finish => a.stage.Settled? && a.phase != Finished
  }

  function Do(a: Actor, m: Move): Actor
    requires Can(a, m)
  {
    match m
    case ObserveCancel => a.(stage := Settled(false))
    case Deadline => Cancel(a).(stage := Settled(false))
    case TakeExec(ok) => a.(queue := a.queue[1..], failed := a.failed || !ok)
    case TakePoison => a.(queue := a.queue[1..], failed := true)
    case TakeCommit =>
      var b := a.(queue := a.queue[1..]);
      if a.phase != Active then b.(stage := Settled(false))
      else if a.failed then b.(phase := Finalizing, stage := Settled(false))
      else b.(phase := Finalizing, stage := Committing)
    case CommitReturns(took) => a.(stage := Settled(took))
    case TakeRollback =>
      a.(queue := a.queue[1..], stage := Settled(false),
         phase := if a.phase == Active then Finalizing else a.phase)
    case ChannelClosed => a.(stage := Settled(false))
    case Finish => a.(phase := Finished)
  }

  /** What every reachable actor satisfies. */
  predicate WellFormed(a: Actor)
  {
    && (a.stage == Serving ==> a.phase == Active || a.phase == CancelRequested)
    && (a.stage == Committing ==> a.phase == Finalizing)
    && (a.stage == Settled(true) ==> a.phase == Finalizing || a.phase == Finished)
    && (a.phase == Finished ==> a.stage.Settled?)
    && (a.failed ==> a.stage != Committing && a.stage != Settled(true))
  }

  /** Has a COMMIT been sent to PostgreSQL for this transaction, or taken effect? */
  predicate CommitStarted(a: Actor)
  {
    a.stage == Committing || a.stage == Settled(true)
  }

  /** A step seen from outside: an actor move, a cancellation, or a command being queued. */
  datatype Touch = Moved(move: Move) | Cancelled | Queued(command: Command)

  predicate Allowed(a: Actor, t: Touch)
  {
    match t
    case Moved(m) => Can(a, m)
    case Cancelled => true
    case Queued(_) => a.phase != Finished && |a.queue| < QUEUE_CAPACITY
  }

  function Touched(a: Actor, t: Touch): Actor
    requires Allowed(a, t)
  {
    match t
    case Moved(m) => Do(a, m)
    case Cancelled => Cancel(a)
    case Queued(c) => a.(queue := a.queue + [c])
  }

  ghost predicate IsHistory(a: Actor, ts: seq<Touch>, last: Actor)
    decreases |ts|
  {
    if ts == [] then last == a
    else Allowed(a, ts[0]) && IsHistory(Touched(a, ts[0]), ts[1..], last)
  }

  /** A cancellation that lands before finalization starts is final: whatever is queued or
      arrives afterwards, the transaction never commits.  One that lands after it started
      changes nothing, so the commit is drained rather than abandoned. */
  lemma {:induction false} CancelDecidesTheRace(a: Actor, ts: seq<Touch>, last: Actor)
    requires WellFormed(a)
    requires IsHistory(Cancel(a), ts, last)
    ensures a.phase == Active ==> !CommitStarted(last)
    ensures a.phase == Finalizing ==> Cancel(a) == a
  {
    if a.phase == Active {
      CancelledStaysUncommitted(Cancel(a), ts, last);
    }
  }

  lemma {:induction false} CancelledStaysUncommitted(a: Actor, ts: seq<Touch>, last: Actor)
    requires WellFormed(a) && !CommitStarted(a) && a.phase != Active
    requires IsHistory(a, ts, last)
    ensures !CommitStarted(last)
    decreases |ts|
  {
    if ts != [] {
      CancelledStaysUncommitted(Touched(a, ts[0]), ts[1..], last);
    }
  }

  /** A finished actor never changes its mind. */
  lemma {:induction false} FinishedIsFrozen(a: Actor, ts: seq<Touch>, last: Actor)
    requires WellFormed(a) && a.phase == Finished
    requires IsHistory(a, ts, last)
    ensures last == a
    decreases |ts|
  {
    if ts != [] {
      FinishedIsFrozen(Touched(a, ts[0]), ts[1..], last);
    }
  }

  /** The queue never holds more than eight commands. */
  lemma {:induction false} QueueIsBounded(a: Actor, ts: seq<Touch>, last: Actor)
    requires |a.queue| <= 8 && IsHistory(a, ts, last)
    ensures |last.queue| <= 8
    decreases |ts|
  {
    if ts != [] { QueueIsBounded(Touched(a, ts[0]), ts[1..], last); }
  }

  /** And it takes eight of an actor that has not finished. */
  lemma {:induction false} QueueTakesEight(a: Actor, cs: seq<Command>, ts: seq<Touch>)
    requires a.phase != Finished && |a.queue| + |cs| <= 8
    requires |ts| == |cs| && forall i | 0 <= i < |cs| :: ts[i] == Queued(cs[i])
    ensures IsHistory(a, ts, a.(queue := a.queue + cs))
    decreases |cs|
  {
    if cs == [] {
      assert a.queue + cs == a.queue;
    } else {
      var b := Touched(a, ts[0]);
      QueueTakesEight(b, cs[1..], ts[1..]);
      assert b.queue + cs[1..] == a.queue + cs;
    }
  }

  /** A transaction commits only if a Commit was queued for it, and only if no statement
      failed and nothing poisoned it before that Commit was taken. */
  lemma {:induction false} OnlyAQueuedCommitCommits(a: Actor, ts: seq<Touch>, last: Actor)
    requires WellFormed(a) && !CommitStarted(a) && Commit !in a.queue
    requires IsHistory(a, ts, last)
    ensures WellFormed(last)
    ensures CommitStarted(last) ==> Queued(Commit) in ts && !last.failed
    decreases |ts|
  {
    if ts != [] {
      var b := Touched(a, ts[0]);
      TouchKeepsWellFormed(a, ts[0]);
      if ts[0] == Queued(Commit) {
        HistoryKeepsWellFormed(b, ts[1..], last);
      } else {
        OnlyAQueuedCommitCommits(b, ts[1..], last);
      }
    }
  }

  lemma TouchKeepsWellFormed(a: Actor, t: Touch)
    requires WellFormed(a) && Allowed(a, t)
    ensures WellFormed(Touched(a, t))
  {
  }

  lemma {:induction false} HistoryKeepsWellFormed(a: Actor, ts: seq<Touch>, last: Actor)
    requires WellFormed(a)
    requires IsHistory(a, ts, last)
    ensures WellFormed(last)
    decreases |ts|
  {
    if ts != [] {
      TouchKeepsWellFormed(a, ts[0]);
      HistoryKeepsWellFormed(Touched(a, ts[0]), ts[1..], last);
    }
  }

  // ---- What decides the outcome ----

  function QueuedBy(t: Touch): seq<Command>
  {
    if t.Queued? then [t.command] else []
  }

  function TakenBy(t: Touch): seq<Command>
  {
    match t
    case Moved(TakeExec(_)) => [Exec]
    case Moved(TakePoison) => [Poison]
    case Moved(TakeCommit) => [Commit]
    case Moved(TakeRollback) => [Rollback]
    case _ => []
  }

  /** The commands that were queued, and those that were taken, in order. */
  function QueuedIn(ts: seq<Touch>): seq<Command>
  {
    if ts == [] then [] else QueuedBy(ts[0]) + QueuedIn(ts[1..])
  }

  function TakenIn(ts: seq<Touch>): seq<Command>
  {
    if ts == [] then [] else TakenBy(ts[0]) + TakenIn(ts[1..])
  }

  /** Every command that is queued is taken in its turn or still waits. */
  lemma {:induction false} CommandsAreTakenInOrder(a: Actor, ts: seq<Touch>, last: Actor)
    requires IsHistory(a, ts, last)
    ensures a.queue + QueuedIn(ts) == TakenIn(ts) + last.queue
    decreases |ts|
  {
    if ts != [] {
      var b := Touched(a, ts[0]);
      CommandsAreTakenInOrder(b, ts[1..], last);
      OneTouchKeepsOrder(a, ts[0]);
      OrderJoins(a.queue, QueuedBy(ts[0]), QueuedIn(ts[1..]), TakenBy(ts[0]), b.queue, TakenIn(ts[1..]), last.queue);
    }
  }

  lemma OrderJoins(q: seq<Command>, in0: seq<Command>, in1: seq<Command>, out0: seq<Command>, mid: seq<Command>, out1: seq<Command>, r: seq<Command>)
    requires q + in0 == out0 + mid && mid + in1 == out1 + r
    ensures q + (in0 + in1) == out0 + out1 + r
  {
    assert q + (in0 + in1) == q + in0 + in1 == out0 + (mid + in1) == out0 + (out1 + r);
  }

  lemma OneTouchKeepsOrder(a: Actor, t: Touch)
    requires Allowed(a, t)
    ensures a.queue + QueuedBy(t) == TakenBy(t) + Touched(a, t).queue
  {
    if t.Moved? && TakenBy(t) != [] { assert a.queue == [a.queue[0]] + a.queue[1..]; }
  }

  predicate Returned(ts: seq<Touch>, took: bool)
  {
    Moved(CommitReturns(took)) in ts
  }

  /** Up to the first commit that was taken nothing cancelled the transaction, failed or poisoned it. */
  predicate CommitSent(ts: seq<Touch>)
  {
    ts != [] &&
    (ts[0] == Moved(TakeCommit) ||
     (ts[0] != Cancelled && ts[0] != Moved(TakeExec(false)) && ts[0] != Moved(TakePoison) && CommitSent(ts[1..])))
  }

  predicate Ending(t: Touch)
  {
    t.Moved? && (t.move == TakeCommit || t.move == TakeRollback || t.move == ObserveCancel || t.move == Deadline || t.move == ChannelClosed)
  }

  predicate Ended(ts: seq<Touch>)
  {
    exists i :: 0 <= i < |ts| && Ending(ts[i])
  }

  /** What was done to an actor decides its outcome: it is committed exactly when a commit was sent
      and PostgreSQL reported it, undecided exactly until then, and otherwise, once it ended, rolled
      back. */
  lemma OutcomeIff(ts: seq<Touch>, last: Actor)
    requires IsHistory(Fresh, ts, last)
    ensures last.stage == Settled(true) <==> CommitSent(ts) && Returned(ts, true)
    ensures last.stage == Committing <==> CommitSent(ts) && !Returned(ts, true) && !Returned(ts, false)
    ensures last.stage == Serving <==> !Ended(ts)
    ensures last.phase == Finished <==> Moved(Finish) in ts
  {
    OutcomeFrom(Fresh, ts, last);
  }

  lemma {:induction false} NothingOnceSettled(a: Actor, ts: seq<Touch>, last: Actor)
    requires a.stage.Settled? && IsHistory(a, ts, last)
    ensures !CommitSent(ts) && !Returned(ts, true) && !Returned(ts, false) && last.stage == a.stage
    decreases |ts|
  {
    if ts != [] {
      NothingOnceSettled(Touched(a, ts[0]), ts[1..], last);
      assert ts == [ts[0]] + ts[1..];
    }
  }

  lemma {:induction false} OutcomeFrom(a: Actor, ts: seq<Touch>, last: Actor)
    requires WellFormed(a) && IsHistory(a, ts, last)
    ensures var sent := a.stage == Committing || (a.stage == Serving && a.phase == Active && !a.failed && CommitSent(ts));
            && (last.stage == Settled(true) <==> a.stage == Settled(true) || (sent && Returned(ts, true)))
            && (last.stage == Committing <==> sent && !Returned(ts, true) && !Returned(ts, false))
    ensures last.stage == Serving <==> a.stage == Serving && !Ended(ts)
    ensures last.phase == Finished <==> a.phase == Finished || Moved(Finish) in ts
    decreases |ts|
  {
    if ts != [] {
      var b, rest := Touched(a, ts[0]), ts[1..];
      TouchKeepsWellFormed(a, ts[0]);
      OutcomeFrom(b, rest, last);
      if b.stage.Settled? { NothingOnceSettled(b, rest, last); }
      assert ts == [ts[0]] + rest;
      assert Ended(ts) <==> Ending(ts[0]) || Ended(rest) by { EndedCons(ts[0], rest); }
    }
  }

  lemma EndedCons(t: Touch, ts: seq<Touch>)
    ensures Ended([t] + ts) <==> Ending(t) || Ended(ts)
  {
    var all := [t] + ts;
    if Ending(t) { assert Ending(all[0]); }
    if Ended(ts) {
      var i :| 0 <= i < |ts| && Ending(ts[i]);
      assert Ending(all[i + 1]);
    }
  }
}
