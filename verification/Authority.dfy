/** Agent authority: a human's run of an agent, the runs it delegates to, and what each of them
    may do while permission tables change underneath. */
module Authority {
  import opened Common
  import opened Permissions

  datatype Principal = Human(id: nat) | Agent(app: string)

  /** The identity tables at one moment: who is enabled, and what each may do.  A principal whose
      permissions cannot be resolved has no entry. */
  datatype World = World(enabled: set<Principal>, grants: map<Principal, Grants>)

  /** One admitted run.  Its lifetime token is its index in `State.runs`, a child of its parent's. */
  datatype Run = Run(
    human: nat,
    agents: seq<string>,
    ceiling: Grants,
    scope: Option<Grants>,
    parent: Option<nat>)

  datatype State = State(runs: seq<Run>, finished: set<nat>)

  ghost predicate Forest(runs: seq<Run>)
  {
    forall i | 0 <= i < |runs| :: runs[i].parent.Some? ==> runs[i].parent.value < i
  }

  /** A token is cancelled when it or a token above it was cancelled. */
  ghost predicate Cancelled(s: State, i: nat)
    requires Forest(s.runs) && i < |s.runs|
    decreases i
  {
    i in s.finished || (s.runs[i].parent.Some? && Cancelled(s, s.runs[i].parent.value))
  }

  ghost predicate IsAncestor(s: State, a: nat, i: nat)
    requires Forest(s.runs) && i < |s.runs|
    decreases i
  {
    a == i || (s.runs[i].parent.Some? && IsAncestor(s, a, s.runs[i].parent.value))
  }

  function InvokeKey(app: string): string
  {
    "app:" + app + ":invoke"
  }

  function Look(w: World, p: Principal): Option<Grants>
  {
    if p in w.enabled && p in w.grants then Some(w.grants[p]) else None
  }

  /** One more agent: it must be enabled and may be invoked with what the lineage allows so far. */
  function NarrowedBy(before: Grants, own: Option<Grants>, app: string): Option<Grants>
  {
    if HasPermission(before, InvokeKey(app)) && own.Some? then Some(Intersect(before, own.value)) else None
  }

  /** What the lineage allows after its first `k` agents, when the human is read in `views[0]`
      and agent number `k` in `views[k + 1]`: the tables may change between two views. */
  function Narrowed(human: nat, agents: seq<string>, views: seq<World>, k: nat): Option<Grants>
    requires k <= |agents| < |views|
  {
    if k == 0 then Look(views[0], Human(human))
    else
      var before, own := Narrowed(human, agents, views, k - 1), Look(views[k], Agent(agents[k - 1]));
      if before.None? then None else NarrowedBy(before.value, own, agents[k - 1])
  }

  /** What `revalidate` returns when it ends in state `s`. */
  ghost function Revalidated(s: State, i: nat, views: seq<World>, originValid: bool): Option<Grants>
    requires Forest(s.runs) && i < |s.runs| && |views| == |s.runs[i].agents| + 1
  {
    var run := s.runs[i];
    var current := Narrowed(run.human, run.agents, views, |run.agents|);
    if Cancelled(s, i) || !originValid || current.None? then None
    else Some(Intersect(run.ceiling, current.value))
  }

  function Clip(grants: Grants, scope: Option<Grants>): Grants
  {
    if scope.Some? then Intersect(grants, scope.value) else grants
  }

  /** The last part of `admit`, common to roots and children. */
  function Admitted(above: Grants, app: string, scope: Option<Grants>, agentRead: World, originValid: bool): Option<Grants>
  {
    var own := Look(agentRead, Agent(app));
    if !HasPermission(above, InvokeKey(app)) || own.None? || !originValid then None
    else Some(Clip(Intersect(above, own.value), scope))
  }

  datatype Event =
    | AdmitRoot(app: string, human: nat, scope: Option<Grants>, humanRead: World, agentRead: World, rootOrigin: bool)
    | AdmitChild(of: nat, app: string, human: nat, views: seq<World>, agentRead: World, parentOrigin: bool, childOrigin: bool)
    | Finish(which: nat)

  ghost predicate Enabled(s: State, e: Event)
  {
    Forest(s.runs) &&
    match e
    case AdmitRoot(_, _, _, _, _, _) => true
    case AdmitChild(of, _, _, views, _, _, _) => of < |s.runs| && |views| == |s.runs[of].agents| + 1
    case Finish(which) => which < |s.runs|
  }

  ghost function Step(s: State, e: Event): State
    requires Enabled(s, e)
  {
    match e
    case AdmitRoot(app, human, scope, humanRead, agentRead, originValid) =>
      var above := Look(humanRead, Human(human));
      if above.None? then s
      else
        var ceiling := Admitted(above.value, app, scope, agentRead, originValid);
        if ceiling.None? then s else s.(runs := s.runs + [Run(human, [app], ceiling.value, scope, None)])
    case AdmitChild(of, app, human, views, agentRead, parentOrigin, childOrigin) =>
      var parent := s.runs[of];
      if parent.human != human || app in parent.agents then s
      else
        var above := Revalidated(s, of, views, parentOrigin);
        if above.None? then s
        else
          var ceiling := Admitted(above.value, app, parent.scope, agentRead, childOrigin);
          if ceiling.None? then s
          else s.(runs := s.runs + [Run(human, parent.agents + [app], ceiling.value, parent.scope, Some(of))])
    case Finish(which) => s.(finished := s.finished + {which})
  }

  // ---- Coverage ----

  ghost predicate Within(a: Grants, b: Grants)
  {
    forall r :: Covers(a, r) ==> Covers(b, r)
  }

  lemma IntersectWithin(a: Grants, b: Grants)
    ensures Within(Intersect(a, b), a) && Within(Intersect(a, b), b)
  {
    forall r | Covers(Intersect(a, b), r) ensures Covers(a, r) && Covers(b, r) { IntersectNeverWidens(a, b, r); }
  }

  lemma WithinIsTransitive(a: Grants, b: Grants, c: Grants)
    requires Within(a, b) && Within(b, c)
    ensures Within(a, c)
  {
  }

  lemma NarrowedSplits(human: nat, agents: seq<string>, views: seq<World>, k: nat) returns (before: Grants, own: Grants)
    requires k < |agents| < |views| && Narrowed(human, agents, views, k + 1).Some?
    ensures Narrowed(human, agents, views, k) == Some(before) && Look(views[k + 1], Agent(agents[k])) == Some(own)
    ensures Narrowed(human, agents, views, k + 1) == Some(Intersect(before, own)) && HasPermission(before, InvokeKey(agents[k]))
    ensures Within(Intersect(before, own), before) && Within(Intersect(before, own), own)
  {
    before, own := Narrowed(human, agents, views, k).value, Look(views[k + 1], Agent(agents[k])).value;
    IntersectWithin(before, own);
  }

  /** The lineage read so far never exceeds the human. */
  lemma {:induction false} NarrowedWithinHuman(human: nat, agents: seq<string>, views: seq<World>, k: nat)
    requires k <= |agents| < |views| && Narrowed(human, agents, views, k).Some?
    ensures Look(views[0], Human(human)).Some?
    ensures Within(Narrowed(human, agents, views, k).value, Look(views[0], Human(human)).value)
  {
    if k > 0 {
      NarrowedWithinHuman(human, agents, views, k - 1);
      var before, own := NarrowedSplits(human, agents, views, k - 1);
      WithinIsTransitive(Intersect(before, own), before, Look(views[0], Human(human)).value);
    }
  }

  /** Nor does it exceed any agent read so far. */
  lemma {:induction false} NarrowedWithinAgent(human: nat, agents: seq<string>, views: seq<World>, k: nat, j: nat)
    requires j < k <= |agents| < |views| && Narrowed(human, agents, views, k).Some?
    ensures AgentAllows(agents, views, j)
    ensures Within(Narrowed(human, agents, views, k).value, Look(views[j + 1], Agent(agents[j])).value)
    decreases k
  {
    var before, own := NarrowedSplits(human, agents, views, k - 1);
    if j < k - 1 {
      NarrowedWithinAgent(human, agents, views, k - 1, j);
      WithinIsTransitive(Intersect(before, own), before, Look(views[j + 1], Agent(agents[j])).value);
    }
  }

  /** Agent number `j` was only reached because everyone before it may invoke it. */
  lemma {:induction false} InvokedByAll(human: nat, agents: seq<string>, views: seq<World>, k: nat, j: nat)
    requires j < k <= |agents| < |views| && Narrowed(human, agents, views, k).Some?
    ensures MayInvoke(human, agents, views, j)
    decreases k
  {
    if j < k - 1 {
      InvokedByAll(human, agents, views, k - 1, j);
    } else {
      var before, key := Narrowed(human, agents, views, j).value, InvokeKey(agents[j]);
      assert Covers(before, key);
      NarrowedWithinHuman(human, agents, views, j);
      forall i | 0 <= i < j
        ensures AgentAllows(agents, views, i) && Covers(Look(views[i + 1], Agent(agents[i])).value, key)
      {
        NarrowedWithinAgent(human, agents, views, j, i);
      }
    }
  }

  ghost predicate AgentAllows(agents: seq<string>, views: seq<World>, j: nat)
    requires j < |agents| < |views|
  {
    Look(views[j + 1], Agent(agents[j])).Some?
  }

  /** The human and every agent before number `j` may invoke it. */
  ghost predicate MayInvoke(human: nat, agents: seq<string>, views: seq<World>, j: nat)
    requires j < |agents| < |views|
  {
    var key := InvokeKey(agents[j]);
    && Look(views[0], Human(human)).Some? && Covers(Look(views[0], Human(human)).value, key)
    && forall i | 0 <= i < j :: AgentAllows(agents, views, i) && Covers(Look(views[i + 1], Agent(agents[i])).value, key)
  }

  // ---- What every state keeps ----

  ghost predicate Distinct(agents: seq<string>)
  {
    forall i, j | 0 <= i < j < |agents| :: agents[i] != agents[j]
  }

  /** A child extends its parent's lineage by one new app and stays under its parent's ceiling. */
  ghost predicate RunOk(runs: seq<Run>, i: nat)
    requires i < |runs|
  {
    var run := runs[i];
    && run.agents != [] && Distinct(run.agents)
    && (run.scope.Some? ==> Within(run.ceiling, run.scope.value))
    && (run.parent.Some? ==>
          && run.parent.value < i
          && var up := runs[run.parent.value];
             && run.human == up.human && run.scope == up.scope
             && |run.agents| == |up.agents| + 1 && up.agents <= run.agents
             && Within(run.ceiling, up.ceiling))
    && (run.parent.None? ==> |run.agents| == 1)
  }

  ghost predicate Inv(s: State)
  {
    Forest(s.runs) && forall i | 0 <= i < |s.runs| :: RunOk(s.runs, i)
  }

  lemma AdmittedWithin(above: Grants, app: string, scope: Option<Grants>, agentRead: World, originValid: bool)
    requires Admitted(above, app, scope, agentRead, originValid).Some?
    ensures var c := Admitted(above, app, scope, agentRead, originValid).value;
            && Within(c, above)
            && (scope.Some? ==> Within(c, scope.value))
            && Look(agentRead, Agent(app)).Some? && Within(c, Look(agentRead, Agent(app)).value)
  {
    var own := Look(agentRead, Agent(app)).value;
    IntersectWithin(above, own);
    if scope.Some? { IntersectWithin(Intersect(above, own), scope.value); }
  }

  lemma OldRunsStay(runs: seq<Run>, run: Run)
    requires forall i | 0 <= i < |runs| :: RunOk(runs, i)
    requires Forest(runs)
    ensures forall i | 0 <= i < |runs| :: RunOk(runs + [run], i)
  {
    forall i | 0 <= i < |runs| ensures RunOk(runs + [run], i) { assert RunOk(runs, i); }
  }

  lemma StepKeeps(s: State, e: Event)
    requires Inv(s) && Enabled(s, e)
    ensures Inv(Step(s, e)) && s.runs <= Step(s, e).runs && s.finished <= Step(s, e).finished
  {
    var s' := Step(s, e);
    if |s'.runs| > |s.runs| {
      var run := s'.runs[|s.runs|];
      OldRunsStay(s.runs, run);
      assert s'.runs == s.runs + [run];
      if e.AdmitRoot? {
        AdmittedWithin(Look(e.humanRead, Human(e.human)).value, e.app, e.scope, e.agentRead, e.rootOrigin);
      } else {
        var parent, above := s.runs[e.of], Revalidated(s, e.of, e.views, e.parentOrigin).value;
        assert RunOk(s.runs, e.of);
        var current := Narrowed(parent.human, parent.agents, e.views, |parent.agents|).value;
        IntersectWithin(parent.ceiling, current);
        AdmittedWithin(above, e.app, parent.scope, e.agentRead, e.childOrigin);
        ExtendLineage(parent.agents, e.app);
      }
      assert RunOk(s'.runs, |s.runs|);
    }
  }

  lemma ExtendLineage(agents: seq<string>, app: string)
    requires Distinct(agents) && app !in agents
    ensures Distinct(agents + [app])
  {
    var longer := agents + [app];
    forall i, j | 0 <= i < j < |longer| ensures longer[i] != longer[j] {
      if j == |agents| { assert agents[i] in agents; }
    }
  }

  // ---- Runs ----

  ghost predicate IsHistory(states: seq<State>, es: seq<Event>)
  {
    && |states| == |es| + 1 && states[0] == State([], {})
    && forall k | 0 <= k < |es| :: StepAt(states, es, k)
  }

  ghost predicate StepAt(states: seq<State>, es: seq<Event>, k: nat)
    requires k < |es| && |states| == |es| + 1
  {
    Enabled(states[k], es[k]) && states[k + 1] == Step(states[k], es[k])
  }

  lemma {:induction false} HistoryKeeps(states: seq<State>, es: seq<Event>, k: nat)
    requires IsHistory(states, es) && k < |states|
    ensures Inv(states[k])
  {
    if k > 0 {
      HistoryKeeps(states, es, k - 1);
      assert StepAt(states, es, k - 1);
      StepKeeps(states[k - 1], es[k - 1]);
    }
  }

  lemma {:induction false} HistoryGrows(states: seq<State>, es: seq<Event>, i: nat, k: nat)
    requires IsHistory(states, es) && i <= k < |states|
    ensures states[i].runs <= states[k].runs && states[i].finished <= states[k].finished
    decreases k
  {
    if i < k {
      HistoryGrows(states, es, i, k - 1);
      HistoryKeeps(states, es, k - 1);
      assert StepAt(states, es, k - 1);
      StepKeeps(states[k - 1], es[k - 1]);
    }
  }

  lemma {:induction false} UnderEveryAncestor(s: State, a: nat, i: nat)
    requires Inv(s) && i < |s.runs| && IsAncestor(s, a, i)
    ensures a <= i && Within(s.runs[i].ceiling, s.runs[a].ceiling) && s.runs[a].agents <= s.runs[i].agents
    ensures s.runs[i].scope == s.runs[a].scope && s.runs[i].human == s.runs[a].human
    decreases i
  {
    assert RunOk(s.runs, i);
    if a != i {
      UnderEveryAncestor(s, a, s.runs[i].parent.value);
    }
  }

  /** Authority never widens.  In every history of admissions, whatever the tables say at each
      read, what revalidation returns stays within the run's own ceiling, the ceiling of every run
      above it, its task scope, the human and every agent of its lineage; no app appears twice in
      the lineage; and everyone in it may invoke those after. */
  lemma AuthorityNeverWidens(states: seq<State>, es: seq<Event>, k: nat, i: nat, views: seq<World>, originValid: bool, a: nat)
    requires IsHistory(states, es) && k < |states|
    requires Forest(states[k].runs) && i < |states[k].runs| && |views| == |states[k].runs[i].agents| + 1
    requires Revalidated(states[k], i, views, originValid).Some? && IsAncestor(states[k], a, i)
    ensures var s := states[k]; var run := s.runs[i]; var got := Revalidated(s, i, views, originValid).value;
            && a <= i && Within(got, s.runs[a].ceiling)
            && (run.scope.Some? ==> Within(got, run.scope.value))
            && Look(views[0], Human(run.human)).Some? && Within(got, Look(views[0], Human(run.human)).value)
            && (forall j | 0 <= j < |run.agents| ::
                  AgentAllows(run.agents, views, j) && Within(got, Look(views[j + 1], Agent(run.agents[j])).value))
            && (forall j | 0 <= j < |run.agents| :: MayInvoke(run.human, run.agents, views, j))
            && Distinct(run.agents)
  {
    HistoryKeeps(states, es, k);
    var s := states[k];
    var run := s.runs[i];
    assert RunOk(s.runs, i);
    UnderEveryAncestor(s, a, i);
    var n, current := |run.agents|, Narrowed(run.human, run.agents, views, |run.agents|).value;
    var got := Intersect(run.ceiling, current);
    IntersectWithin(run.ceiling, current);
    WithinIsTransitive(got, run.ceiling, s.runs[a].ceiling);
    if run.scope.Some? { WithinIsTransitive(got, run.ceiling, run.scope.value); }
    NarrowedWithinHuman(run.human, run.agents, views, n);
    WithinIsTransitive(got, current, Look(views[0], Human(run.human)).value);
    forall j | 0 <= j < n
      ensures AgentAllows(run.agents, views, j) && Within(got, Look(views[j + 1], Agent(run.agents[j])).value)
      ensures MayInvoke(run.human, run.agents, views, j)
    {
      NarrowedWithinAgent(run.human, run.agents, views, n, j);
      WithinIsTransitive(got, current, Look(views[j + 1], Agent(run.agents[j])).value);
      InvokedByAll(run.human, run.agents, views, n, j);
    }
  }

  // ---- Nothing is lost either ----

  lemma ExactIntersect(a: Grants, b: Grants, r: string)
    requires Narrowable(r)
    ensures Covers(Intersect(a, b), r) <==> Covers(a, r) && Covers(b, r)
  {
    if Covers(a, r) && Covers(b, r) { NarrowableIsExact(a, b, r); }
    if Covers(Intersect(a, b), r) { IntersectNeverWidens(a, b, r); }
  }

  ghost predicate LineageCovers(human: nat, agents: seq<string>, views: seq<World>, k: nat, r: string)
    requires k <= |agents| < |views|
  {
    && Look(views[0], Human(human)).Some? && Covers(Look(views[0], Human(human)).value, r)
    && forall j | 0 <= j < k :: AgentAllows(agents, views, j) && Covers(Look(views[j + 1], Agent(agents[j])).value, r)
  }

  lemma {:induction false} NarrowedIsExact(human: nat, agents: seq<string>, views: seq<World>, k: nat, r: string)
    requires k <= |agents| < |views| && Narrowed(human, agents, views, k).Some?
    requires Narrowable(r)
    ensures Covers(Narrowed(human, agents, views, k).value, r) <==> LineageCovers(human, agents, views, k, r)
  {
    if k > 0 {
      NarrowedIsExact(human, agents, views, k - 1, r);
      var before, own := Narrowed(human, agents, views, k - 1).value, Look(views[k], Agent(agents[k - 1])).value;
      ExactIntersect(before, own, r);
      assert AgentAllows(agents, views, k - 1);
    }
  }

  /** Revalidation grants a key exactly when the ceiling, the human and every agent do. */
  lemma RevalidationIsExact(s: State, i: nat, views: seq<World>, originValid: bool, r: string)
    requires Forest(s.runs) && i < |s.runs| && |views| == |s.runs[i].agents| + 1
    requires Revalidated(s, i, views, originValid).Some?
    requires Narrowable(r)
    ensures Covers(Revalidated(s, i, views, originValid).value, r) <==>
            Covers(s.runs[i].ceiling, r) && LineageCovers(s.runs[i].human, s.runs[i].agents, views, |s.runs[i].agents|, r)
  {
    var run := s.runs[i];
    NarrowedIsExact(run.human, run.agents, views, |run.agents|, r);
    ExactIntersect(run.ceiling, Narrowed(run.human, run.agents, views, |run.agents|).value, r);
  }

  // ---- The end of a run ----

  lemma {:induction false} CancelledBelow(s: State, a: nat, i: nat)
    requires Forest(s.runs) && i < |s.runs| && IsAncestor(s, a, i) && a in s.finished
    ensures Cancelled(s, i)
    decreases i
  {
    if a != i { CancelledBelow(s, a, s.runs[i].parent.value); }
  }

  lemma {:induction false} CancelledFromAbove(s: State, i: nat) returns (a: nat)
    requires Forest(s.runs) && i < |s.runs| && Cancelled(s, i)
    ensures IsAncestor(s, a, i) && a in s.finished
    decreases i
  {
    if i in s.finished { a := i; } else { a := CancelledFromAbove(s, s.runs[i].parent.value); }
  }

  /** Once a run has finished, neither it nor any run below it revalidates again, and none of
      them can admit a child, in this or any later state. */
  lemma FinishedLineageIsDead(states: seq<State>, es: seq<Event>, m: nat, k: nat, a: nat, i: nat, views: seq<World>, originValid: bool)
    requires IsHistory(states, es) && m <= k < |states|
    requires Forest(states[k].runs) && i < |states[k].runs| && IsAncestor(states[k], a, i) && a in states[m].finished
    requires |views| == |states[k].runs[i].agents| + 1
    ensures Revalidated(states[k], i, views, originValid).None?
    ensures forall app: string, human: nat, w: World, o1: bool, o2: bool ::
              Step(states[k], AdmitChild(i, app, human, views, w, o1, o2)) == states[k]
  {
    HistoryGrows(states, es, m, k);
    CancelledBelow(states[k], a, i);
  }

  /** A run in progress is refused only for cause: with no finished run above it, a valid origin
      and a readable lineage, revalidation succeeds. */
  lemma LiveRunRevalidates(s: State, i: nat, views: seq<World>)
    requires Forest(s.runs) && i < |s.runs| && |views| == |s.runs[i].agents| + 1
    ensures Revalidated(s, i, views, true).Some? <==>
            (forall a | 0 <= a < |s.runs| && IsAncestor(s, a, i) :: a !in s.finished)
            && Narrowed(s.runs[i].human, s.runs[i].agents, views, |s.runs[i].agents|).Some?
  {
    if Cancelled(s, i) {
      var a := CancelledFromAbove(s, i);
      AncestorIsBelow(s, a, i);
    } else if a :| 0 <= a < |s.runs| && IsAncestor(s, a, i) && a in s.finished {
      CancelledBelow(s, a, i);
    }
  }

  lemma {:induction false} AncestorIsBelow(s: State, a: nat, i: nat)
    requires Forest(s.runs) && i < |s.runs| && IsAncestor(s, a, i)
    ensures a <= i
    decreases i
  {
    if a != i { AncestorIsBelow(s, a, s.runs[i].parent.value); }
  }

  // ---- The loop of `revalidate` ----

  /** Reads the human, then every agent in turn, narrowing as it goes. */
  method NarrowLineage(human: nat, agents: seq<string>, views: seq<World>) returns (current: Option<Grants>)
    requires |views| == |agents| + 1
    ensures current == Narrowed(human, agents, views, |agents|)
  {
    current := Look(views[0], Human(human));
    if current.None? {
      NarrowingStops(human, agents, views, 0);
      return;
    }
    for k := 0 to |agents|
      invariant current.Some? && Narrowed(human, agents, views, k) == current
    {
      var own := Look(views[k + 1], Agent(agents[k]));
      NarrowStep(human, agents, views, k);
      if !HasPermission(current.value, InvokeKey(agents[k])) || own.None? {
        NarrowingStops(human, agents, views, k + 1);
        return None;
      }
      current := Some(Intersect(current.value, own.value));
    }
  }

  /** Is the token of run `i`, or one above it, cancelled?  The answer is looked up along the
      parents. */
  method IsCancelled(s: State, i: nat) returns (cancelled: bool)
    requires Forest(s.runs) && i < |s.runs|
    ensures cancelled <==> Cancelled(s, i)
  {
    var at: nat := i;
    while at !in s.finished && s.runs[at].parent.Some?
      invariant at < |s.runs| && (Cancelled(s, at) <==> Cancelled(s, i))
      decreases at
    {
      at := s.runs[at].parent.value;
    }
    return at in s.finished;
  }

  /** The lifetime is checked before the reads, in `first`, and after them, in `last`; only the
      second check decides, because a token stays cancelled. */
  method Revalidate(states: seq<State>, ghost es: seq<Event>, first: nat, last: nat, i: nat, views: seq<World>, originValid: bool)
    returns (r: Option<Grants>)
    requires IsHistory(states, es) && first <= last < |states|
    requires i < |states[first].runs| && |views| == |states[first].runs[i].agents| + 1
    ensures Forest(states[last].runs) && i < |states[last].runs| && states[last].runs[i] == states[first].runs[i]
    ensures r == Revalidated(states[last], i, views, originValid)
  {
    HistoryKeeps(states, es, first);
    HistoryKeeps(states, es, last);
    HistoryGrows(states, es, first, last);
    var run := states[first].runs[i];
    var ended := IsCancelled(states[first], i);
    if ended {
      StaysCancelled(states[first], states[last], i);
      return None;
    }
    if !originValid { return None; }
    var current := NarrowLineage(run.human, run.agents, views);
    if current.None? { return None; }
    ended := IsCancelled(states[last], i);
    if ended { return None; }
    return Some(Intersect(run.ceiling, current.value));
  }

  lemma {:induction false} StaysCancelled(s: State, s': State, i: nat)
    requires Forest(s.runs) && Forest(s'.runs) && i < |s.runs| && s.runs <= s'.runs && s.finished <= s'.finished && Cancelled(s, i)
    ensures Cancelled(s', i)
    decreases i
  {
    if i !in s.finished { StaysCancelled(s, s', s.runs[i].parent.value); }
  }

  lemma NarrowStep(human: nat, agents: seq<string>, views: seq<World>, k: nat)
    requires k < |agents| < |views| && Narrowed(human, agents, views, k).Some?
    ensures var before, own := Narrowed(human, agents, views, k).value, Look(views[k + 1], Agent(agents[k]));
            Narrowed(human, agents, views, k + 1) == NarrowedBy(before, own, agents[k])
  {
  }

  lemma NothingFromNothing(human: nat, agents: seq<string>, views: seq<World>, k: nat)
    requires k < |agents| < |views| && Narrowed(human, agents, views, k).None?
    ensures Narrowed(human, agents, views, k + 1).None?
  {
  }

  lemma {:induction false} NarrowingStops(human: nat, agents: seq<string>, views: seq<World>, k: nat)
    requires k <= |agents| < |views| && Narrowed(human, agents, views, k).None?
    ensures Narrowed(human, agents, views, |agents|).None?
    decreases |agents| - k
  {
    if k < |agents| {
      NothingFromNothing(human, agents, views, k);
      NarrowingStops(human, agents, views, k + 1);
    }
  }
}
