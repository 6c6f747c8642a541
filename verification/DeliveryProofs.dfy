/** What every run of the scheduler keeps: messages are never lost, deliveries are bounded, permits
    are conserved and runs are single-flight. */
module DeliveryProofs {
  import opened Common
  import opened Delivery

  // ---- No message is lost ----

  /** A message is in exactly one place, and it is archived only if it was completed or copied to
      the dead-letter queue first. */
  ghost predicate Placed(s: State, m: MsgId)
  {
    && (m in s.kinds <==> m in s.queue || m in s.archived || m in s.deleted)
    && !(m in s.queue && m in s.archived) && !(m in s.queue && m in s.deleted) && !(m in s.archived && m in s.deleted)
    && (m in s.archived ==> m in s.completed || m in s.deadLetters)
    && (m in s.queue ==> s.queue[m].kind == s.kinds[m])
    && (m in s.kinds ==> m < s.nextId)
    && (m in s.deadLetters ==> m in s.kinds)
  }

  ghost predicate AllPlaced(s: State)
  {
    forall m :: Placed(s, m)
  }

  // ---- Deliveries are counted ----

  /** Was this delivery of the message handed over? */
  ghost predicate Delivered(hs: seq<Handoff>, m: MsgId, readCt: nat)
  {
    exists i :: 0 <= i < |hs| && hs[i].msg == m && hs[i].readCt == readCt
  }

  ghost predicate TaskOk(s: State, t: nat)
  {
    t in s.tasks ==>
      var k := s.tasks[t];
      && t < s.nextId && k.msg in s.kinds && k.readCt >= 1
      && (exists hasAgent :: k.route == RouteOf(s.kinds[k.msg], hasAgent))
      && (k.msg in s.queue ==> k.readCt <= s.queue[k.msg].readCt)
      && (k.stage == Routing ==> !Delivered(s.handoffs, k.msg, k.readCt))
      && (k.stage == Copied ==> k.msg in s.deadLetters)
  }

  /** Two tasks never hold the same delivery. */
  ghost predicate Apart(s: State, t: nat, u: nat)
  {
    t in s.tasks && u in s.tasks && t != u && s.tasks[t].msg == s.tasks[u].msg ==> s.tasks[t].readCt != s.tasks[u].readCt
  }

  ghost predicate HandoffOk(s: State, h: Handoff)
  {
    h in s.handoffs ==>
      && h.msg in s.kinds && h.readCt >= 1
      && (h.route != ToAgent ==> h.readCt <= MAX_DELIVERIES)
      && (h.msg in s.queue ==> h.readCt <= s.queue[h.msg].readCt)
  }

  ghost predicate Distinct(hs: seq<Handoff>)
  {
    forall i, j | 0 <= i < j < |hs| :: hs[i].msg != hs[j].msg || hs[i].readCt != hs[j].readCt
  }

  ghost predicate Counted(s: State)
  {
    && (forall t :: TaskOk(s, t)) && (forall t, u :: Apart(s, t, u))
    && (forall h :: HandoffOk(s, h)) && Distinct(s.handoffs)
    && (forall r | r in s.runs :: s.runs[r] in s.kinds)
  }

  // ---- Permits ----

  ghost predicate Permits(s: State)
  {
    && s.free + |s.holders| == MAX_CONCURRENT_DISPATCH
    && (forall t :: TaskHolds(t) in s.holders <==> t in s.tasks)
    && (forall l :: LoopHolds(l) in s.holders ==> l in s.loops)
    && (forall t | t in s.tasks :: t < s.nextId)
  }

  // ---- Workflow runs ----

  ghost predicate SingleFlight(s: State)
  {
    && (forall r | r in s.runs :: s.runs[r] in s.inFlight && r < s.nextId)
    && (forall m | m in s.inFlight :: exists r :: r in s.runs && s.runs[r] == m)
    && (forall q, r | q in s.runs && r in s.runs && q != r :: s.runs[q] != s.runs[r])
  }

  ghost predicate Inv(s: State)
  {
    AllPlaced(s) && Counted(s) && Permits(s) && SingleFlight(s)
  }

  // ---- One step ----

  lemma PlacedStep(s: State, e: Event)
    requires AllPlaced(s) && Counted(s) && Enabled(s, e)
    ensures AllPlaced(Apply(s, e))
  {
    var s' := Apply(s, e);
    forall m ensures Placed(s', m) {
      assert Placed(s, m);
      PlacedAt(s, e, m);
    }
  }

  /** Steps that leave the queue's books alone. */
  predicate KeepsBooks(e: Event)
  {
    e.LoopStarts? || e.LoopTakesPermit? || e.LoopReleases? || e.LoopDies? || e.TaskHandsToWorker? || e.TaskStartsRun?
    || e.TaskEnds? || e.RunEnds? || e.Crash?
  }

  lemma BooksKept(s: State, e: Event)
    requires Enabled(s, e) && KeepsBooks(e)
    ensures var s' := Apply(s, e);
            && s'.queue == s.queue && s'.archived == s.archived && s'.deleted == s.deleted && s'.completed == s.completed
            && s'.deadLetters == s.deadLetters && s'.kinds == s.kinds && s'.nextId >= s.nextId
  {
  }

  lemma HandedIsKnown(s: State, m: MsgId)
    requires Counted(s) && WasHanded(s, m)
    ensures m in s.kinds
  {
    var i :| 0 <= i < |s.handoffs| && s.handoffs[i].msg == m;
    assert HandoffOk(s, s.handoffs[i]);
  }

  lemma PlacedAt(s: State, e: Event, m: MsgId)
    requires AllPlaced(s) && Counted(s) && Enabled(s, e)
    ensures Placed(Apply(s, e), m)
  {
    assert Placed(s, m);
    if KeepsBooks(e) {
      BooksKept(s, e);
    } else {
      match e
      case TaskCopies(t) => assert TaskOk(s, t);
      case TaskArchives(t) => assert TaskOk(s, t) && Placed(s, s.tasks[t].msg);
      case WorkerCopies(x) => HandedIsKnown(s, x);
      case _ =>
    }
  }

  /** Steps in which no permit moves. */
  predicate KeepsPermits(e: Event)
  {
    !(e.LoopTakesPermit? || e.LoopReads? || e.LoopReleases? || e.LoopDies? || e.TaskEnds? || e.Crash?)
  }

  lemma PermitsKept(s: State, e: Event)
    requires Enabled(s, e) && KeepsPermits(e)
    ensures var s' := Apply(s, e);
            s'.free == s.free && s'.holders == s.holders && s'.tasks.Keys == s.tasks.Keys && s.loops <= s'.loops && s'.nextId >= s.nextId
  {
  }

  lemma QuietPermits(s: State, e: Event)
    requires Permits(s) && Enabled(s, e) && KeepsPermits(e)
    ensures Permits(Apply(s, e))
  {
    var s' := Apply(s, e);
    PermitsKept(s, e);
    forall t ensures TaskHolds(t) in s'.holders <==> t in s'.tasks { assert t in s'.tasks <==> t in s'.tasks.Keys; }
    forall t | t in s'.tasks ensures t < s'.nextId { assert t in s.tasks.Keys; }
  }

  lemma ReadMovesPermit(s: State, l: nat, m: MsgId, hasAgent: bool)
    requires Permits(s) && Enabled(s, LoopReads(l, m, hasAgent))
    ensures Permits(ReadInto(s, l, m, hasAgent))
  {
    var held := s.holders - {LoopHolds(l)};
    assert |held| == |s.holders| - 1 && TaskHolds(s.nextId) !in held;
  }

  lemma TaskReturnsPermit(s: State, t: nat)
    requires Permits(s) && t in s.tasks
    ensures Permits(Release(s.(tasks := s.tasks - {t}), TaskHolds(t)))
  {
  }

  lemma LoopReturnsPermit(s: State, l: nat, loops: set<nat>)
    requires Permits(s) && (loops == s.loops || loops == s.loops - {l})
    ensures Permits(Release(s.(loops := loops), LoopHolds(l)))
  {
  }

  lemma PermitStep(s: State, e: Event)
    requires Permits(s) && Enabled(s, e)
    ensures Permits(Apply(s, e))
  {
    if KeepsPermits(e) {
      QuietPermits(s, e);
    } else {
      match e
      case LoopReads(l, m, hasAgent) => ReadMovesPermit(s, l, m, hasAgent);
      case LoopReleases(l) =>
        assert s.(loops := s.loops) == s;
        LoopReturnsPermit(s, l, s.loops);
      case LoopDies(l) => LoopReturnsPermit(s, l, s.loops - {l});
      case TaskEnds(t) => TaskReturnsPermit(s, t);
      case _ =>
    }
  }

  lemma FlightKept(s: State, e: Event)
    requires Enabled(s, e) && !e.TaskStartsRun? && !e.RunEnds? && !e.Crash?
    ensures var s' := Apply(s, e); s'.runs == s.runs && s'.inFlight == s.inFlight && s'.nextId >= s.nextId
  {
  }

  lemma RunStarts(s: State, t: nat)
    requires SingleFlight(s) && Enabled(s, TaskStartsRun(t))
    ensures SingleFlight(Apply(s, TaskStartsRun(t)))
  {
    var s' := Apply(s, TaskStartsRun(t));
    var m := s.tasks[t].msg;
    forall x | x in s'.inFlight ensures exists r :: r in s'.runs && s'.runs[r] == x {
      if x == m {
        assert s'.runs[s.nextId] == x;
      } else {
        var r :| r in s.runs && s.runs[r] == x;
        assert s'.runs[r] == x;
      }
    }
  }

  lemma RunStops(s: State, r: nat)
    requires SingleFlight(s) && r in s.runs
    ensures SingleFlight(Apply(s, RunEnds(r)))
  {
    var s' := Apply(s, RunEnds(r));
    forall x | x in s'.inFlight ensures exists q :: q in s'.runs && s'.runs[q] == x {
      var q :| q in s.runs && s.runs[q] == x;
      assert s'.runs[q] == x;
    }
  }

  lemma FlightStep(s: State, e: Event)
    requires SingleFlight(s) && Enabled(s, e)
    ensures SingleFlight(Apply(s, e))
  {
    if e.TaskStartsRun? {
      RunStarts(s, e.task);
    } else if e.RunEnds? {
      RunStops(s, e.run);
    } else if !e.Crash? {
      FlightKept(s, e);
    }
  }

  lemma CountedStep(s: State, e: Event)
    requires AllPlaced(s) && Counted(s) && Enabled(s, e)
    ensures Counted(Apply(s, e))
  {
    var s' := Apply(s, e);
    forall t ensures TaskOk(s', t) { TaskOkStep(s, e, t); }
    forall t, u ensures Apart(s', t, u) { ApartStep(s, e, t, u); }
    forall h ensures HandoffOk(s', h) { HandoffOkStep(s, e, h); }
    DistinctStep(s, e);
    RunsStep(s, e);
  }

  lemma RunsStep(s: State, e: Event)
    requires AllPlaced(s) && Counted(s) && Enabled(s, e)
    ensures forall r | r in Apply(s, e).runs :: Apply(s, e).runs[r] in Apply(s, e).kinds
  {
    if e.TaskStartsRun? { assert TaskOk(s, e.task); }
  }

  /** Steps that neither read a message nor hand one over. */
  predicate Quiet(e: Event)
  {
    !(e.LoopReads? || e.LoopReadFails? || e.TaskHandsToWorker? || e.TaskStartsRun?)
  }

  lemma QuietStep(s: State, e: Event, m: MsgId)
    requires AllPlaced(s) && Enabled(s, e) && Quiet(e)
    ensures var s' := Apply(s, e);
            && s'.handoffs == s.handoffs && s'.nextId >= s.nextId && s.deadLetters <= s'.deadLetters
            && (m in s.kinds ==> m in s'.kinds && s'.kinds[m] == s.kinds[m])
            && (m in s.kinds && m in s'.queue ==> m in s.queue && s'.queue[m].readCt == s.queue[m].readCt)
  {
    assert Placed(s, m) && Placed(s, s.nextId);
  }

  lemma QuietTask(s: State, e: Event, t: nat)
    requires Enabled(s, e) && Quiet(e) && t in Apply(s, e).tasks
    ensures t in s.tasks
    ensures var k, k' := s.tasks[t], Apply(s, e).tasks[t];
            && k'.msg == k.msg && k'.route == k.route && k'.readCt == k.readCt
            && (k'.stage == Routing ==> k.stage == Routing)
            && (k'.stage == Copied ==> k.stage == Copied || k.msg in Apply(s, e).deadLetters)
  {
  }

  /** The delivery that is being read has not been handed over yet. */
  lemma ReadIsNew(s: State, m: MsgId)
    requires Counted(s) && m in s.queue
    ensures !Delivered(s.handoffs, m, s.queue[m].readCt + 1)
  {
    forall i | 0 <= i < |s.handoffs| ensures s.handoffs[i].msg != m || s.handoffs[i].readCt != s.queue[m].readCt + 1 {
      assert HandoffOk(s, s.handoffs[i]);
    }
  }

  lemma TaskOkStep(s: State, e: Event, t: nat)
    requires AllPlaced(s) && Counted(s) && Enabled(s, e)
    ensures TaskOk(Apply(s, e), t)
  {
    assert TaskOk(s, t);
    if Quiet(e) {
      if t in Apply(s, e).tasks {
        QuietTask(s, e, t);
        QuietStep(s, e, s.tasks[t].msg);
      }
    } else if e.LoopReads? {
      assert Placed(s, e.msg);
      ReadIsNew(s, e.msg);
    } else if !e.LoopReadFails? {
      assert TaskOk(s, e.task) && Apart(s, t, e.task);
    }
  }

  lemma ApartStep(s: State, e: Event, t: nat, u: nat)
    requires Counted(s) && Enabled(s, e)
    ensures Apart(Apply(s, e), t, u)
  {
    assert Apart(s, t, u) && TaskOk(s, t) && TaskOk(s, u);
  }

  lemma HandoffOkStep(s: State, e: Event, h: Handoff)
    requires AllPlaced(s) && Counted(s) && Enabled(s, e)
    ensures HandoffOk(Apply(s, e), h)
  {
    assert HandoffOk(s, h) && Placed(s, h.msg);
    if Quiet(e) {
      QuietStep(s, e, h.msg);
    } else if !e.LoopReads? && !e.LoopReadFails? {
      assert TaskOk(s, e.task);
    }
  }

  lemma DistinctStep(s: State, e: Event)
    requires Counted(s) && Enabled(s, e)
    ensures Distinct(Apply(s, e).handoffs)
  {
    match e
    case TaskHandsToWorker(u) => assert TaskOk(s, u);
    case TaskStartsRun(u) => assert TaskOk(s, u);
    case _ =>
  }

  lemma StepKeeps(s: State, e: Event)
    requires Inv(s) && Enabled(s, e)
    ensures Inv(Apply(s, e))
  {
    PlacedStep(s, e);
    CountedStep(s, e);
    PermitStep(s, e);
    FlightStep(s, e);
  }

  lemma {:induction false} RunKeeps(states: seq<State>, es: seq<Event>, k: nat)
    requires IsRun(states, es) && k < |states|
    ensures Inv(states[k])
  {
    if k > 0 {
      RunKeeps(states, es, k - 1);
      assert StepAt(states, es, k - 1);
      StepKeeps(states[k - 1], es[k - 1]);
    }
  }

  // ---- The theorems ----

  /** The deliveries of a message that were handed to an agent, or those that were handed over
      otherwise. */
  function Deliveries(hs: seq<Handoff>, m: MsgId, toAgent: bool): seq<nat>
  {
    if hs == [] then []
    else
      var last := hs[|hs| - 1];
      Deliveries(hs[..|hs| - 1], m, toAgent) + if last.msg == m && (last.route == ToAgent) == toAgent then [last.readCt] else []
  }

  ghost predicate NoRepeats(s: seq<nat>)
  {
    forall i, j | 0 <= i < j < |s| :: s[i] != s[j]
  }

  lemma {:induction false} DeliveriesAre(hs: seq<Handoff>, m: MsgId, toAgent: bool)
    requires Distinct(hs)
    ensures NoRepeats(Deliveries(hs, m, toAgent))
    ensures forall c | c in Deliveries(hs, m, toAgent) :: Delivered(hs, m, c)
    ensures forall c | c in Deliveries(hs, m, toAgent) :: exists h :: h in hs && h.msg == m && h.readCt == c && (h.route == ToAgent) == toAgent
    decreases |hs|
  {
    if hs != [] {
      var init, last := hs[..|hs| - 1], hs[|hs| - 1];
      DeliveriesAre(init, m, toAgent);
      assert hs == init + [last];
      assert last.msg == m ==> !Delivered(init, m, last.readCt);
      forall c | c in Deliveries(init, m, toAgent) ensures Delivered(hs, m, c) {
        var i :| 0 <= i < |init| && init[i].msg == m && init[i].readCt == c;
        assert hs[i] == init[i];
      }
      assert Delivered(hs, last.msg, last.readCt);
    }
  }

  /** Distinct numbers between 1 and n are at most n. */
  lemma {:induction false} Pigeonhole(s: seq<nat>, n: nat)
    requires NoRepeats(s) && forall c | c in s :: 1 <= c <= n
    ensures |s| <= n
    decreases n
  {
    if s == [] {
      return;
    }
    assert s[0] in s;
    if n in s {
      var i :| 0 <= i < |s| && s[i] == n;
      var rest := s[..i] + s[i + 1..];
      assert forall c | c in rest :: c in s && c != n;
      Pigeonhole(rest, n - 1);
    } else {
      Pigeonhole(s, n - 1);
    }
  }

  /** In every run, whatever crashes, a message is handed to an app's worker or to a runner at most
      five times. */
  lemma BoundedRedelivery(states: seq<State>, es: seq<Event>, k: nat, m: MsgId)
    requires IsRun(states, es) && k < |states|
    ensures |Deliveries(states[k].handoffs, m, false)| <= 5
  {
    RunKeeps(states, es, k);
    var s := states[k];
    var d := Deliveries(s.handoffs, m, false);
    DeliveriesAre(s.handoffs, m, false);
    forall c | c in d ensures 1 <= c <= MAX_DELIVERIES {
      var h :| h in s.handoffs && h.msg == m && h.readCt == c && h.route != ToAgent;
      assert HandoffOk(s, h);
    }
    Pigeonhole(d, MAX_DELIVERIES);
  }

  /** And it is never lost: at every point it is on the queue, archived after it was completed or
      copied to the dead-letter queue, or deleted on purpose, by a handler, a worker or the uninstall of its
      app. */
  lemma NoMessageIsLost(states: seq<State>, es: seq<Event>, k: nat, m: MsgId)
    requires IsRun(states, es) && k < |states| && m in states[k].kinds
    ensures var s := states[k];
            || m in s.queue
            || (m in s.archived && (m in s.completed || m in s.deadLetters))
            || m in s.deleted
    ensures var s := states[k]; (m in s.queue ==> m !in s.archived && m !in s.deleted) && !(m in s.archived && m in s.deleted)
  {
    RunKeeps(states, es, k);
    assert Placed(states[k], m);
  }

  function ByTasks(keys: set<nat>): set<Holder>
  {
    set t | t in keys :: TaskHolds(t)
  }

  function ByLoops(keys: set<nat>): set<Holder>
  {
    set l | l in keys :: LoopHolds(l)
  }

  lemma {:induction false} TasksHoldPermits(keys: set<nat>)
    ensures |ByTasks(keys)| == |keys|
    decreases keys
  {
    if keys != {} {
      var x :| x in keys;
      TasksHoldPermits(keys - {x});
      assert ByTasks(keys) == ByTasks(keys - {x}) + {TaskHolds(x)};
    }
  }

  lemma {:induction false} LoopsHoldPermits(keys: set<nat>)
    ensures |ByLoops(keys)| == |keys|
    decreases keys
  {
    if keys != {} {
      var x :| x in keys;
      LoopsHoldPermits(keys - {x});
      assert ByLoops(keys) == ByLoops(keys - {x}) + {LoopHolds(x)};
    }
  }

  /** The dispatch pool: free permits, running handlers and loops that hold one always add up to
      eight, across panics, aborts that leave the old loop alive for a while, and crashes. */
  lemma PermitsAddUp(states: seq<State>, es: seq<Event>, k: nat)
    requires IsRun(states, es) && k < |states|
    ensures var s := states[k];
            s.free + |s.tasks.Keys| + |set l | l in s.loops && LoopHolds(l) in s.holders| == 8
  {
    RunKeeps(states, es, k);
    HoldersAddUp(states[k]);
  }

  lemma HoldersAre(s: State, ls: set<nat>)
    requires Permits(s) && ls == set l | l in s.loops && LoopHolds(l) in s.holders
    ensures s.holders == ByTasks(s.tasks.Keys) + ByLoops(ls) && ByTasks(s.tasks.Keys) !! ByLoops(ls)
  {
    var both := ByTasks(s.tasks.Keys) + ByLoops(ls);
    forall h ensures h in s.holders <==> h in both { match h case LoopHolds(_) => case TaskHolds(_) => }
  }

  lemma HoldersAddUp(s: State)
    requires Permits(s)
    ensures s.free + |s.tasks.Keys| + |set l | l in s.loops && LoopHolds(l) in s.holders| == MAX_CONCURRENT_DISPATCH
  {
    var ls := set l | l in s.loops && LoopHolds(l) in s.holders;
    HoldersAre(s, ls);
    TasksHoldPermits(s.tasks.Keys);
    LoopsHoldPermits(ls);
    var a, b := ByTasks(s.tasks.Keys), ByLoops(ls);
    assert |a + b| == |a| + |b|;
  }

  /** `in_flight` is exactly the messages of live run tasks, and no two tasks run the same one. */
  lemma InFlightIsLiveRuns(states: seq<State>, es: seq<Event>, k: nat)
    requires IsRun(states, es) && k < |states|
    ensures var s := states[k]; s.inFlight == s.runs.Values
    ensures var s := states[k]; forall q, r | q in s.runs && r in s.runs && q != r :: s.runs[q] != s.runs[r]
  {
    RunKeeps(states, es, k);
    var s := states[k];
    forall m ensures m in s.inFlight <==> m in s.runs.Values {
      if m in s.inFlight { var r :| r in s.runs && s.runs[r] == m; }
    }
  }

  // ---- Deliveries to an agent have no such bound ----

  lemma Extend(states: seq<State>, es: seq<Event>, e: Event) returns (states': seq<State>, es': seq<Event>)
    requires IsRun(states, es) && Enabled(states[|es|], e)
    ensures IsRun(states', es') && es' == es + [e] && states' == states + [Apply(states[|es|], e)]
  {
    states', es' := states + [Apply(states[|es|], e)], es + [e];
    forall k | 0 <= k < |es'| ensures StepAt(states', es', k) {
      if k < |es| { assert StepAt(states, es, k); }
    }
  }

  /** Message 0 goes to an agent, loop 1 is idle, and nothing else is going on. */
  ghost predicate Resting(s: State, kind: Kind)
  {
    && 0 in s.queue && s.queue[0].kind == kind
    && 1 in s.loops && s.free == MAX_CONCURRENT_DISPATCH && s.holders == {} && s.tasks == map[]
  }

  /** The message is read into a task of its own. */
  lemma DeliveryIsRead(states: seq<State>, es: seq<Event>, kind: Kind) returns (states': seq<State>, es': seq<Event>)
    requires IsRun(states, es) && Resting(states[|es|], kind) && (kind == AgentJob || kind == Cron)
    ensures IsRun(states', es')
    ensures var s, s' := states[|es|], states'[|es'|];
            && 0 in s'.queue && s'.queue[0].kind == kind && 1 in s'.loops && s'.free == MAX_CONCURRENT_DISPATCH - 1
            && s'.holders == {TaskHolds(s.nextId)} && s'.handoffs == s.handoffs
            && s'.tasks == map[s.nextId := Task(0, ToAgent, s.queue[0].readCt + 1, Routing)]
  {
    states', es' := Extend(states, es, LoopTakesPermit(1));
    states', es' := Extend(states', es', LoopReads(1, 0, true));
  }

  lemma OneMoreDelivery(states: seq<State>, es: seq<Event>, kind: Kind) returns (states': seq<State>, es': seq<Event>)
    requires IsRun(states, es) && Resting(states[|es|], kind) && (kind == AgentJob || kind == Cron)
    ensures IsRun(states', es') && Resting(states'[|es'|], kind)
    ensures |Deliveries(states'[|es'|].handoffs, 0, true)| == |Deliveries(states[|es|].handoffs, 0, true)| + 1
  {
    var s := states[|es|];
    var t := s.nextId;
    states', es' := DeliveryIsRead(states, es, kind);
    states', es' := Extend(states', es', TaskHandsToWorker(t));
    var handed := states'[|es'|];
    assert handed.handoffs == s.handoffs + [Handoff(0, s.queue[0].readCt + 1, ToAgent)];
    assert handed.handoffs[..|s.handoffs|] == s.handoffs;
    assert handed.tasks.Keys == {t};
    states', es' := Extend(states', es', TaskEnds(t));
    assert states'[|es'|].tasks == map[] && states'[|es'|].holders == {};
  }

  /** For every n there is a run in which one agent job, or one cron message of an app with an
      agent, is handed over n times. */
  lemma {:induction false} AgentDeliveriesUnbounded(kind: Kind, n: nat) returns (states: seq<State>, es: seq<Event>)
    requires kind == AgentJob || kind == Cron
    ensures IsRun(states, es) && Resting(states[|es|], kind) && |Deliveries(states[|es|].handoffs, 0, true)| == n
    decreases n
  {
    if n == 0 {
      states, es := Extend([INITIAL], [], Send(kind));
      states, es := Extend(states, es, LoopStarts);
    } else {
      states, es := AgentDeliveriesUnbounded(kind, n - 1);
      states, es := OneMoreDelivery(states, es, kind);
    }
  }
}
