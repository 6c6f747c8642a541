/** The books of the queue told from the events of a run, and what each kind of message can come to. */
module DeliveryLedger {
  import opened Common
  import opened Delivery
  import opened DeliveryProofs

  // ---- What one event does to one message ----

  predicate Sends(s: State, e: Event, m: MsgId)
  {
    e.Send? && m == s.nextId
  }

  /** A handler, worker or run reports the message done, or a worker archives it after copying it. */
  predicate Archives(s: State, e: Event, m: MsgId)
  {
    match e
    case WorkerCompletes(x) => x == m
    case WorkerArchives(x) => x == m
    case RunCompletes(r) => r in s.runs && s.runs[r] == m
    case TaskArchives(t) => t in s.tasks && s.tasks[t].msg == m
    case _ => false
  }

  predicate Deletes(s: State, e: Event, m: MsgId)
  {
    match e
    case WorkerDeletes(x) => x == m
    case TaskDeletes(t) => t in s.tasks && s.tasks[t].msg == m
    case Uninstall(gone) => m in gone
    case _ => false
  }

  predicate Copies(s: State, e: Event, m: MsgId)
  {
    match e
    case WorkerCopies(x) => x == m
    case TaskCopies(t) => t in s.tasks && s.tasks[t].msg == m
    case _ => false
  }

  predicate Completes(s: State, e: Event, m: MsgId)
  {
    match e
    case WorkerCompletes(x) => x == m
    case RunCompletes(r) => r in s.runs && s.runs[r] == m
    case _ => false
  }

  predicate Reads(e: Event, m: MsgId)
  {
    (e.LoopReads? || e.LoopReadFails?) && e.msg == m
  }

  /** The message is on the queue exactly if it was just sent, or was there and was neither archived
      nor deleted. */
  lemma QueueStep(s: State, e: Event, m: MsgId)
    requires AllPlaced(s) && Enabled(s, e)
    ensures m in Apply(s, e).queue <==> Sends(s, e, m) || (m in s.queue && !Archives(s, e, m) && !Deletes(s, e, m))
    ensures m in Apply(s, e).queue ==>
              Apply(s, e).queue[m].readCt == if Sends(s, e, m) then 0 else if Reads(e, m) then s.queue[m].readCt + 1 else s.queue[m].readCt
  {
    assert Placed(s, m);
  }

  lemma ArchiveStep(s: State, e: Event, m: MsgId)
    requires AllPlaced(s) && Enabled(s, e)
    ensures m in Apply(s, e).archived <==> (m in s.queue && Archives(s, e, m)) || (m in s.archived && !(e.Uninstall? && m in e.gone))
  {
    assert Placed(s, m);
  }

  lemma DeletedStep(s: State, e: Event, m: MsgId)
    requires Enabled(s, e)
    ensures m in Apply(s, e).deleted <==> m in s.deleted || (m in s.queue && Deletes(s, e, m)) || (m in s.archived && e.Uninstall? && m in e.gone)
  {
  }

  lemma CopyStep(s: State, e: Event, m: MsgId)
    requires Enabled(s, e)
    ensures m in Apply(s, e).deadLetters <==> m in s.deadLetters || Copies(s, e, m)
    ensures m in Apply(s, e).completed <==> m in s.completed || Completes(s, e, m)
  {
  }

  lemma KindStep(s: State, e: Event, m: MsgId)
    requires AllPlaced(s) && Enabled(s, e)
    ensures m in Apply(s, e).kinds <==> m in s.kinds || Sends(s, e, m)
    ensures Sends(s, e, m) ==> Apply(s, e).kinds[m] == e.kind
    ensures m in s.kinds ==> Apply(s, e).kinds[m] == s.kinds[m]
  {
    assert Placed(s, m);
  }

  /** A permit is read into a task; a task ends with its own end or with the process. */
  lemma TaskStep(s: State, e: Event, t: nat)
    requires Permits(s) && Enabled(s, e)
    ensures t in Apply(s, e).tasks <==> (e.LoopReads? && t == s.nextId) || (t in s.tasks && e != TaskEnds(t) && !e.Crash?)
  {
    if KeepsPermits(e) {
      PermitsKept(s, e);
      assert t in Apply(s, e).tasks <==> t in Apply(s, e).tasks.Keys;
    }
  }

  /** A message is in flight while a run of it is. */
  lemma FlightStepIff(s: State, e: Event, m: MsgId)
    requires Enabled(s, e)
    ensures m in Apply(s, e).inFlight <==>
              || (e.TaskStartsRun? && s.tasks[e.task].msg == m)
              || (m in s.inFlight && !(e.RunEnds? && s.runs[e.run] == m) && !e.Crash?)
  {
  }

  // ---- The same over runs ----

  ghost predicate SentAt(states: seq<State>, es: seq<Event>, i: nat, m: MsgId)
  {
    i < |es| && i < |states| && Sends(states[i], es[i], m)
  }

  ghost predicate GoneAt(states: seq<State>, es: seq<Event>, i: nat, m: MsgId)
  {
    i < |es| && i < |states| && (Archives(states[i], es[i], m) || Deletes(states[i], es[i], m))
  }

  ghost predicate ArchivedAt(states: seq<State>, es: seq<Event>, i: nat, m: MsgId)
  {
    i < |es| && i < |states| && m in states[i].queue && Archives(states[i], es[i], m)
  }

  ghost predicate PurgedAt(es: seq<Event>, i: nat, m: MsgId)
  {
    i < |es| && es[i].Uninstall? && m in es[i].gone
  }

  ghost predicate CopiedAt(states: seq<State>, es: seq<Event>, i: nat, m: MsgId)
  {
    i < |es| && i < |states| && Copies(states[i], es[i], m)
  }

  /** A message is on the queue exactly since it was sent, until something archives or deletes it. */
  lemma QueueIff(states: seq<State>, es: seq<Event>, k: nat, m: MsgId)
    requires IsRun(states, es) && k < |states|
    ensures m in states[k].queue <==>
              HeldSince((i: nat) => SentAt(states, es, i, m), (i: nat) => GoneAt(states, es, i, m), k)
  {
    var held := (i: nat) => i < |states| && m in states[i].queue;
    var opens, closes := (i: nat) => SentAt(states, es, i, m), (i: nat) => GoneAt(states, es, i, m);
    forall i: nat | i < k ensures LedgerStep(held, opens, closes, i) {
      RunKeeps(states, es, i);
      assert StepAt(states, es, i);
      QueueStep(states[i], es[i], m);
    }
    LedgerIff(held, opens, closes, k);
  }

  /** It is archived exactly since it was taken off the queue as done or copied, until an uninstall. */
  lemma ArchivedIff(states: seq<State>, es: seq<Event>, k: nat, m: MsgId)
    requires IsRun(states, es) && k < |states|
    ensures m in states[k].archived <==>
              HeldSince((i: nat) => ArchivedAt(states, es, i, m), (i: nat) => PurgedAt(es, i, m), k)
  {
    var held := (i: nat) => i < |states| && m in states[i].archived;
    var opens, closes := (i: nat) => ArchivedAt(states, es, i, m), (i: nat) => PurgedAt(es, i, m);
    forall i: nat | i < k ensures LedgerStep(held, opens, closes, i) {
      RunKeeps(states, es, i);
      assert StepAt(states, es, i);
      ArchiveStep(states[i], es[i], m);
    }
    LedgerIff(held, opens, closes, k);
  }

  /** A dead-letter copy is there once a handler or a worker made it, for good. */
  lemma CopiedIff(states: seq<State>, es: seq<Event>, k: nat, m: MsgId)
    requires IsRun(states, es) && k < |states|
    ensures m in states[k].deadLetters <==> exists i: nat :: i < k && CopiedAt(states, es, i, m)
  {
    var held := (i: nat) => i < |states| && m in states[i].deadLetters;
    var opens, closes := (i: nat) => CopiedAt(states, es, i, m), (i: nat) => false;
    forall i: nat | i < k ensures LedgerStep(held, opens, closes, i) {
      assert StepAt(states, es, i);
      CopyStep(states[i], es[i], m);
    }
    LedgerIff(held, opens, closes, k);
    if i: nat :| i < k && CopiedAt(states, es, i, m) { assert opens(i); }
  }

  // ---- How often a message was read ----

  function ReadsOf(es: seq<Event>, m: MsgId): nat
  {
    if es == [] then 0 else ReadsOf(es[..|es| - 1], m) + if Reads(es[|es| - 1], m) then 1 else 0
  }

  lemma ReadsSnoc(es: seq<Event>, k: nat, m: MsgId)
    requires k < |es|
    ensures ReadsOf(es[..k + 1], m) == ReadsOf(es[..k], m) + if Reads(es[k], m) then 1 else 0
  {
    assert es[..k + 1][..k] == es[..k];
  }

  /** The count the queue keeps is the number of times the message was read, successfully or not. */
  lemma {:induction false} ReadCountIs(states: seq<State>, es: seq<Event>, k: nat, m: MsgId)
    requires IsRun(states, es) && k < |states|
    ensures m in states[k].queue ==> states[k].queue[m].readCt == ReadsOf(es[..k], m)
    ensures m !in states[k].kinds ==> ReadsOf(es[..k], m) == 0
    decreases k
  {
    if k > 0 {
      ReadCountIs(states, es, k - 1, m);
      RunKeeps(states, es, k - 1);
      assert StepAt(states, es, k - 1);
      var s, e := states[k - 1], es[k - 1];
      ReadsSnoc(es, k - 1, m);
      QueueStep(s, e, m);
      KindStep(s, e, m);
      assert Placed(s, m);
    }
  }

  // ---- What a message of each kind comes to ----

  /** Every handover of the message, to whomever. */
  function HandoversOf(hs: seq<Handoff>, m: MsgId): seq<nat>
  {
    if hs == [] then []
    else
      var last := hs[|hs| - 1];
      HandoversOf(hs[..|hs| - 1], m) + if last.msg == m then [last.readCt] else []
  }

  lemma {:induction false} HandoversAre(hs: seq<Handoff>, m: MsgId)
    requires Distinct(hs)
    ensures NoRepeats(HandoversOf(hs, m))
    ensures forall c | c in HandoversOf(hs, m) :: exists h :: h in hs && h.msg == m && h.readCt == c
    decreases |hs|
  {
    if hs != [] {
      var init, last := hs[..|hs| - 1], hs[|hs| - 1];
      HandoversAre(init, m);
      assert hs == init + [last];
      if last.msg == m {
        forall c | c in HandoversOf(init, m) ensures c != last.readCt {
          var h :| h in init && h.msg == m && h.readCt == c;
          var i :| 0 <= i < |init| && init[i] == h;
          assert hs[i] == h && hs[|init|] == last;
        }
        var before := HandoversOf(init, m);
        forall i | 0 <= i < |before| ensures before[i] != last.readCt { assert before[i] in before; }
      }
    }
  }

  /** A handed-over message has provenance, and an app job or a workflow was read at most five times
      by then. */
  ghost predicate HandoverFits(s: State, h: Handoff)
  {
    h in s.handoffs ==> h.msg in s.kinds && s.kinds[h.msg] != Legacy && h.readCt >= 1 && (s.kinds[h.msg] in [AppJob, Workflow] ==> h.readCt <= 5)
  }

  lemma HandoverFitsStep(s: State, e: Event, h: Handoff)
    requires Inv(s) && Enabled(s, e) && HandoverFits(s, h)
    ensures HandoverFits(Apply(s, e), h)
  {
    assert Placed(s, h.msg);
    KindStep(s, e, h.msg);
    if e.TaskHandsToWorker? || e.TaskStartsRun? { assert TaskOk(s, e.task); }
  }

  lemma {:induction false} HandoversFit(states: seq<State>, es: seq<Event>, k: nat, h: Handoff)
    requires IsRun(states, es) && k < |states|
    ensures HandoverFits(states[k], h)
    decreases k
  {
    if k > 0 {
      HandoversFit(states, es, k - 1, h);
      RunKeeps(states, es, k - 1);
      assert StepAt(states, es, k - 1);
      HandoverFitsStep(states[k - 1], es[k - 1], h);
    }
  }

  /** In every run with crashes: an app job and a workflow are handed over, to anyone, at most five
      times, and a message without provenance never. */
  lemma BoundedByKind(states: seq<State>, es: seq<Event>, k: nat, m: MsgId)
    requires IsRun(states, es) && k < |states| && m in states[k].kinds
    ensures states[k].kinds[m] in [AppJob, Workflow] ==> |HandoversOf(states[k].handoffs, m)| <= 5
    ensures states[k].kinds[m] == Legacy ==> HandoversOf(states[k].handoffs, m) == []
  {
    RunKeeps(states, es, k);
    var s := states[k];
    var all := HandoversOf(s.handoffs, m);
    HandoversAre(s.handoffs, m);
    forall c | c in all ensures c >= 1 && s.kinds[m] != Legacy && (s.kinds[m] in [AppJob, Workflow] ==> c <= 5) {
      var h :| h in s.handoffs && h.msg == m && h.readCt == c;
      HandoversFit(states, es, k, h);
    }
    if s.kinds[m] in [AppJob, Workflow] { Pigeonhole(all, 5); }
    if all != [] { assert all[0] in all; }
  }

  /** Is this the kind of the message this task holds? */
  predicate Holds(s: State, t: nat, kinds: set<Kind>)
  {
    t in s.tasks && s.tasks[t].msg in s.kinds && s.kinds[s.tasks[t].msg] in kinds
  }

  /** A workflow is only ever started as a run, and nothing else is. */
  lemma RunsAreWorkflows(states: seq<State>, es: seq<Event>, k: nat)
    requires IsRun(states, es) && k < |es|
    ensures es[k].TaskStartsRun? ==> Holds(states[k], es[k].task, {Workflow})
    ensures es[k].TaskHandsToWorker? ==> Holds(states[k], es[k].task, {AppJob, AgentJob, Cron})
  {
    RunKeeps(states, es, k);
    assert StepAt(states, es, k);
    if es[k].TaskStartsRun? || es[k].TaskHandsToWorker? { assert TaskOk(states[k], es[k].task); }
  }

  /** And every handover is recorded: of that message, with its count, at that step. */
  lemma HandoverIsRecorded(s: State, e: Event)
    requires Enabled(s, e)
    ensures e.TaskStartsRun? || e.TaskHandsToWorker? ==>
              && |Apply(s, e).handoffs| == |s.handoffs| + 1 && Apply(s, e).handoffs[..|s.handoffs|] == s.handoffs
              && var h := Apply(s, e).handoffs[|s.handoffs|]; h.msg == s.tasks[e.task].msg && h.readCt == s.tasks[e.task].readCt
    ensures !e.TaskStartsRun? && !e.TaskHandsToWorker? ==> Apply(s, e).handoffs == s.handoffs
  {
  }

  // ---- What may come next ----

  /** Messages are sent, workers report, apps are uninstalled and the process dies whenever they like;
      a loop takes a permit if one is free, and with it reads any message on the queue; a run in
      progress may report and end, and a task may end. */
  predicate MayCome(s: State, e: Event)
  {
    || e.Send? || e.LoopStarts? || e.WorkerCompletes? || e.WorkerDeletes? || e.Uninstall? || e.Crash?
    || (e.WorkerCopies? && exists h :: h in s.handoffs && h.msg == e.msg)
    || (e.WorkerArchives? && e.msg in s.deadLetters)
    || (e.LoopDies? && e.loop in s.loops)
    || (e.LoopTakesPermit? && e.loop in s.loops && s.free > 0 && LoopHolds(e.loop) !in s.holders)
    || ((e.LoopReads? || e.LoopReadFails?) && e.loop in s.loops && LoopHolds(e.loop) in s.holders && e.msg in s.queue)
    || (e.LoopReleases? && e.loop in s.loops && LoopHolds(e.loop) in s.holders)
    || ((e.RunCompletes? || e.RunEnds?) && e.run in s.runs)
    || (e.TaskEnds? && e.task in s.tasks)
  }

  /** Every run goes on with any of these. */
  lemma RunGoesOn(states: seq<State>, es: seq<Event>, e: Event) returns (states': seq<State>)
    requires IsRun(states, es) && MayCome(states[|es|], e)
    ensures IsRun(states', es + [e]) && states' == states + [states'[|es| + 1]]
  {
    var s := states[|es|];
    if e.WorkerCopies? {
      var h :| h in s.handoffs && h.msg == e.msg;
      var i :| 0 <= i < |s.handoffs| && s.handoffs[i] == h;
      assert WasHanded(s, e.msg);
    }
    var es';
    states', es' := Extend(states, es, e);
  }

  // ---- Five deliveries do happen ----

  /** Message 0 is of this kind, loop 1 is idle, and nothing else is going on. */
  ghost predicate Waiting(s: State, kind: Kind)
  {
    && 0 in s.queue && s.queue[0].kind == kind && 1 in s.loops && s.free == 8 && s.holders == {} && s.tasks == map[]
    && s.runs == map[] && s.inFlight == {}
  }

  /** One task routes a delivery that is not exhausted, and nothing else holds a permit. */
  ghost predicate Alone(s: State, t: nat, route: Route)
  {
    && s.holders == {TaskHolds(t)} && s.free == 7 && t in s.tasks && s.tasks == map[t := s.tasks[t]]
    && s.tasks[t].route == route && s.tasks[t].stage == Routing && s.tasks[t].readCt <= 5
  }

  /** The message is read into a task of its own. */
  lemma IsRead(states: seq<State>, es: seq<Event>, kind: Kind) returns (states': seq<State>, es': seq<Event>)
    requires IsRun(states, es) && Waiting(states[|es|], kind) && kind in [AppJob, Workflow]
    ensures IsRun(states', es')
    ensures var s, s' := states[|es|], states'[|es'|];
            && s'.queue == s.queue[0 := Message(kind, s.queue[0].readCt + 1)] && s'.handoffs == s.handoffs
            && s'.loops == s.loops && s'.free == 7 && s'.holders == {TaskHolds(s.nextId)} && s'.runs == map[] && s'.inFlight == {}
            && s'.tasks == map[s.nextId := Task(0, if kind == AppJob then ToApp else ToRunner, s.queue[0].readCt + 1, Routing)]
  {
    states', es' := Extend(states, es, LoopTakesPermit(1));
    states', es' := Extend(states', es', LoopReads(1, 0, false));
  }

  lemma JobIsHanded(states: seq<State>, es: seq<Event>, t: nat) returns (states': seq<State>, es': seq<Event>)
    requires IsRun(states, es)
    requires Alone(states[|es|], t, ToApp)
    ensures IsRun(states', es')
    ensures var s, s' := states[|es|], states'[|es'|];
            && s'.queue == s.queue && s'.loops == s.loops && s'.free == 8 && s'.holders == {} && s'.tasks == map[] && s'.runs == s.runs && s'.inFlight == s.inFlight
            && s'.handoffs == s.handoffs + [Handoff(s.tasks[t].msg, s.tasks[t].readCt, ToApp)]
  {
    states', es' := Extend(states, es, TaskHandsToWorker(t));
    states', es' := Extend(states', es', TaskEnds(t));
    assert states'[|es'|].tasks == map[];
  }

  lemma WorkflowIsRun(states: seq<State>, es: seq<Event>, t: nat) returns (states': seq<State>, es': seq<Event>)
    requires IsRun(states, es)
    requires Alone(states[|es|], t, ToRunner)
    requires states[|es|].runs == map[] && states[|es|].inFlight == {}
    ensures IsRun(states', es')
    ensures var s, s' := states[|es|], states'[|es'|];
            && s'.queue == s.queue && s'.loops == s.loops && s'.free == 8 && s'.holders == {} && s'.tasks == map[] && s'.runs == map[] && s'.inFlight == {}
            && s'.handoffs == s.handoffs + [Handoff(s.tasks[t].msg, s.tasks[t].readCt, ToRunner)]
  {
    var r := states[|es|].nextId;
    states', es' := Extend(states, es, TaskStartsRun(t));
    states', es' := Extend(states', es', RunEnds(r));
    var ended := states'[|es'|];
    assert ended.runs == map[] && ended.tasks.Keys == {t};
    states', es' := Extend(states', es', TaskEnds(t));
    assert states'[|es'|].tasks == map[];
  }

  lemma OneHandover(states: seq<State>, es: seq<Event>, kind: Kind) returns (states': seq<State>, es': seq<Event>)
    requires IsRun(states, es) && Waiting(states[|es|], kind) && kind in [AppJob, Workflow] && states[|es|].queue[0].readCt < 5
    ensures IsRun(states', es') && Waiting(states'[|es'|], kind) && states'[|es'|].queue[0].readCt == states[|es|].queue[0].readCt + 1
    ensures |HandoversOf(states'[|es'|].handoffs, 0)| == |HandoversOf(states[|es|].handoffs, 0)| + 1
  {
    var s := states[|es|];
    states', es' := IsRead(states, es, kind);
    if kind == AppJob {
      states', es' := JobIsHanded(states', es', s.nextId);
    } else {
      states', es' := WorkflowIsRun(states', es', s.nextId);
    }
    var hs := states'[|es'|].handoffs;
    assert hs[..|hs| - 1] == s.handoffs;
  }

  /** For every n up to five some run hands one app job, or one workflow, over n times. */
  lemma {:induction false} FiveDeliveriesHappen(kind: Kind, n: nat) returns (states: seq<State>, es: seq<Event>)
    requires kind in [AppJob, Workflow] && n <= 5
    ensures IsRun(states, es) && Waiting(states[|es|], kind) && states[|es|].queue[0].readCt == n
    ensures |HandoversOf(states[|es|].handoffs, 0)| == n
    decreases n
  {
    if n == 0 {
      states, es := Extend([INITIAL], [], Send(kind));
      states, es := Extend(states, es, LoopStarts);
    } else {
      states, es := FiveDeliveriesHappen(kind, n - 1);
      states, es := OneHandover(states, es, kind);
    }
  }
}
