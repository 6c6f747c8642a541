/** Exactly when a run of an agent is admitted or revalidated, and exactly what it may do. */
module AuthorityAdmission {
  import opened Common
  import opened Permissions
  import opened Authority

  /** What a principal may do, if it is enabled and can be read. */
  ghost predicate Allows(w: World, p: Principal, r: string)
  {
    p in w.enabled && p in w.grants && Covers(w.grants[p], r)
  }

  ghost predicate Readable(w: World, p: Principal)
  {
    p in w.enabled && p in w.grants
  }

  /** The permission to invoke an app carries no scope, so a grant covers it only by satisfying it. */
  lemma InvokeIsPlain(app: string, grants: Grants)
    ensures InvokeKey(app) == "app:" + app + ":invoke" && !Scoped(InvokeKey(app)) && Narrowable(InvokeKey(app))
    ensures HasPermission(grants, InvokeKey(app)) <==> Covers(grants, "app:" + app + ":invoke")
  {
    var key := InvokeKey(app);
    assert key[|key| - 1] == 'e';
    assert ".own"[3] == 'n' && ".shared"[6] == 'd';
    assert key[|key| - 4..][3] == key[|key| - 1] && key[|key| - 7..][6] == key[|key| - 1];
  }

  // ---- When a lineage can be read ----

  /** The human can be read, and every agent can be read and invoked by the human and everyone before
      it. */
  ghost predicate LineageReads(human: nat, agents: seq<string>, views: seq<World>, k: nat)
    requires k <= |agents| < |views|
  {
    && Readable(views[0], Human(human))
    && forall j | 0 <= j < k :: AgentReads(human, agents, views, j)
  }

  ghost predicate AgentReads(human: nat, agents: seq<string>, views: seq<World>, j: nat)
    requires j < |agents| < |views|
  {
    var key := "app:" + agents[j] + ":invoke";
    && Readable(views[j + 1], Agent(agents[j])) && Allows(views[0], Human(human), key)
    && forall i | 0 <= i < j :: Allows(views[i + 1], Agent(agents[i]), key)
  }

  lemma LineageCoversMeans(human: nat, agents: seq<string>, views: seq<World>, k: nat, r: string)
    requires k <= |agents| < |views|
    ensures LineageCovers(human, agents, views, k, r) <==>
            Allows(views[0], Human(human), r) && forall j | 0 <= j < k :: Allows(views[j + 1], Agent(agents[j]), r)
  {
    if forall j | 0 <= j < k :: Allows(views[j + 1], Agent(agents[j]), r) {
      forall j | 0 <= j < k ensures AgentAllows(agents, views, j) && Covers(Look(views[j + 1], Agent(agents[j])).value, r) {
        assert Allows(views[j + 1], Agent(agents[j]), r);
      }
    }
    if LineageCovers(human, agents, views, k, r) {
      forall j | 0 <= j < k ensures Allows(views[j + 1], Agent(agents[j]), r) { assert AgentAllows(agents, views, j); }
    }
  }

  lemma {:induction false} LineageReadsIff(human: nat, agents: seq<string>, views: seq<World>, k: nat)
    requires k <= |agents| < |views|
    ensures Narrowed(human, agents, views, k).Some? <==> LineageReads(human, agents, views, k)
    decreases k
  {
    if k > 0 {
      var j := k - 1;
      LineageReadsIff(human, agents, views, j);
      if Narrowed(human, agents, views, j).Some? {
        var key := InvokeKey(agents[j]);
        InvokeIsPlain(agents[j], Narrowed(human, agents, views, j).value);
        NarrowedIsExact(human, agents, views, j, key);
        LineageCoversMeans(human, agents, views, j, key);
        assert Narrowed(human, agents, views, k).Some? <==> AgentReads(human, agents, views, j);
      }
    }
  }

  /** Revalidation succeeds exactly when no run above has finished, its origin is valid and its
      lineage can still be read. */
  lemma RevalidatesIff(s: State, i: nat, views: seq<World>, originValid: bool)
    requires Forest(s.runs) && i < |s.runs| && |views| == |s.runs[i].agents| + 1
    ensures Revalidated(s, i, views, originValid).Some? <==>
            && originValid && (forall a | 0 <= a < |s.runs| && IsAncestor(s, a, i) :: a !in s.finished)
            && LineageReads(s.runs[i].human, s.runs[i].agents, views, |s.runs[i].agents|)
  {
    LineageReadsIff(s.runs[i].human, s.runs[i].agents, views, |s.runs[i].agents|);
    LiveRunRevalidates(s, i, views);
  }

  // ---- When a run is admitted ----

  /** What admits a run must cover invoking the agent, the agent must be readable, and its origin
      valid. */
  lemma AdmittedIff(above: Grants, app: string, scope: Option<Grants>, agentRead: World, originValid: bool)
    ensures Admitted(above, app, scope, agentRead, originValid).Some? <==>
            Covers(above, "app:" + app + ":invoke") && Readable(agentRead, Agent(app)) && originValid
  {
    InvokeIsPlain(app, above);
  }

  /** A new ceiling covers exactly what admitted it, the agent and the scope, if there is one, all
      cover. */
  lemma AdmittedIsExact(above: Grants, app: string, scope: Option<Grants>, agentRead: World, originValid: bool, r: string)
    requires Admitted(above, app, scope, agentRead, originValid).Some? && Narrowable(r)
    ensures Covers(Admitted(above, app, scope, agentRead, originValid).value, r) <==>
            Covers(above, r) && Allows(agentRead, Agent(app), r) && (scope.Some? ==> Covers(scope.value, r))
  {
    var own := agentRead.grants[Agent(app)];
    ExactIntersect(above, own, r);
    if scope.Some? { ExactIntersect(Intersect(above, own), scope.value, r); }
  }

  ghost predicate MayAdmitRoot(e: Event)
    requires e.AdmitRoot?
  {
    && Allows(e.humanRead, Human(e.human), "app:" + e.app + ":invoke") && Readable(e.agentRead, Agent(e.app)) && e.rootOrigin
  }

  /** The new run: a lineage of one, with the scope it was given and no parent. */
  ghost predicate IsRoot(e: Event, run: Run)
    requires e.AdmitRoot?
  {
    && run.human == e.human && run.agents == [e.app] && run.scope == e.scope && run.parent == None
    && forall r | Narrowable(r) ::
         Covers(run.ceiling, r) <==>
         Allows(e.humanRead, Human(e.human), r) && Allows(e.agentRead, Agent(e.app), r) && (e.scope.Some? ==> Covers(e.scope.value, r))
  }

  /** A root run is admitted exactly when the human may invoke the agent, who is enabled. */
  lemma RootIsAdmittedIff(s: State, e: Event)
    requires Enabled(s, e) && e.AdmitRoot?
    ensures if MayAdmitRoot(e) then
              && |Step(s, e).runs| == |s.runs| + 1 && Step(s, e).runs[..|s.runs|] == s.runs && Step(s, e).finished == s.finished
              && IsRoot(e, Step(s, e).runs[|s.runs|])
            else Step(s, e) == s
  {
    var read := Look(e.humanRead, Human(e.human));
    if read.Some? {
      AdmittedIff(read.value, e.app, e.scope, e.agentRead, e.rootOrigin);
      if MayAdmitRoot(e) {
        forall r | Narrowable(r)
          ensures Covers(Step(s, e).runs[|s.runs|].ceiling, r) <==>
                  Allows(e.humanRead, Human(e.human), r) && Allows(e.agentRead, Agent(e.app), r) && (e.scope.Some? ==> Covers(e.scope.value, r))
        {
          AdmittedIsExact(read.value, e.app, e.scope, e.agentRead, e.rootOrigin, r);
        }
      }
    }
  }

  /** The parent's run still holds, and with what it still may do it may invoke the agent. */
  ghost predicate MayAdmitChild(s: State, e: Event)
    requires Enabled(s, e) && e.AdmitChild?
  {
    var up := s.runs[e.of];
    && up.human == e.human && e.app !in up.agents && e.parentOrigin && e.childOrigin
    && (forall a | 0 <= a < |s.runs| && IsAncestor(s, a, e.of) :: a !in s.finished)
    && LineageReads(up.human, up.agents, e.views, |up.agents|)
    && StillCovers(s, e.of, e.views, "app:" + e.app + ":invoke")
    && Readable(e.agentRead, Agent(e.app))
  }

  /** The ceiling covers it, and so do the human and every agent as they are read now. */
  ghost predicate StillCovers(s: State, i: nat, views: seq<World>, r: string)
    requires i < |s.runs| && |views| == |s.runs[i].agents| + 1
  {
    var run := s.runs[i];
    && Covers(run.ceiling, r) && Allows(views[0], Human(run.human), r)
    && forall j | 0 <= j < |run.agents| :: Allows(views[j + 1], Agent(run.agents[j]), r)
  }

  /** The new run: its parent's lineage and the agent, under its parent's scope. */
  ghost predicate IsChild(s: State, e: Event, run: Run)
    requires Enabled(s, e) && e.AdmitChild?
  {
    var up := s.runs[e.of];
    && run.human == up.human && run.agents == up.agents + [e.app] && run.scope == up.scope && run.parent == Some(e.of)
    && forall r | Narrowable(r) ::
         Covers(run.ceiling, r) <==>
         StillCovers(s, e.of, e.views, r) && Allows(e.agentRead, Agent(e.app), r) && (up.scope.Some? ==> Covers(up.scope.value, r))
  }

  lemma StillCoversIff(s: State, i: nat, views: seq<World>, originValid: bool, r: string)
    requires Forest(s.runs) && i < |s.runs| && |views| == |s.runs[i].agents| + 1
    requires Revalidated(s, i, views, originValid).Some? && Narrowable(r)
    ensures Covers(Revalidated(s, i, views, originValid).value, r) <==> StillCovers(s, i, views, r)
  {
    RevalidationIsExact(s, i, views, originValid, r);
    LineageCoversMeans(s.runs[i].human, s.runs[i].agents, views, |s.runs[i].agents|, r);
  }

  lemma ChildCeiling(s: State, e: Event, r: string)
    requires Enabled(s, e) && e.AdmitChild? && Narrowable(r) && Revalidated(s, e.of, e.views, e.parentOrigin).Some?
    requires Admitted(Revalidated(s, e.of, e.views, e.parentOrigin).value, e.app, s.runs[e.of].scope, e.agentRead, e.childOrigin).Some?
    ensures var up := s.runs[e.of];
            Covers(Admitted(Revalidated(s, e.of, e.views, e.parentOrigin).value, e.app, up.scope, e.agentRead, e.childOrigin).value, r) <==>
            StillCovers(s, e.of, e.views, r) && Allows(e.agentRead, Agent(e.app), r) && (up.scope.Some? ==> Covers(up.scope.value, r))
  {
    var above := Revalidated(s, e.of, e.views, e.parentOrigin).value;
    AdmittedIsExact(above, e.app, s.runs[e.of].scope, e.agentRead, e.childOrigin, r);
    StillCoversIff(s, e.of, e.views, e.parentOrigin, r);
  }

  lemma ChildMayBeAdmitted(s: State, e: Event)
    requires Enabled(s, e) && e.AdmitChild?
    ensures MayAdmitChild(s, e) <==>
            && s.runs[e.of].human == e.human && e.app !in s.runs[e.of].agents
            && var above := Revalidated(s, e.of, e.views, e.parentOrigin);
               above.Some? && Admitted(above.value, e.app, s.runs[e.of].scope, e.agentRead, e.childOrigin).Some?
  {
    RevalidatesIff(s, e.of, e.views, e.parentOrigin);
    var above := Revalidated(s, e.of, e.views, e.parentOrigin);
    if above.Some? {
      AdmittedIff(above.value, e.app, s.runs[e.of].scope, e.agentRead, e.childOrigin);
      InvokeIsPlain(e.app, above.value);
      StillCoversIff(s, e.of, e.views, e.parentOrigin, InvokeKey(e.app));
    }
  }

  /** A delegated run is admitted exactly when the run that delegates still holds, is of the same human,
      does not contain the agent yet, and may still invoke it. */
  lemma ChildIsAdmittedIff(s: State, e: Event)
    requires Enabled(s, e) && e.AdmitChild?
    ensures if MayAdmitChild(s, e) then
              && |Step(s, e).runs| == |s.runs| + 1 && Step(s, e).runs[..|s.runs|] == s.runs && Step(s, e).finished == s.finished
              && IsChild(s, e, Step(s, e).runs[|s.runs|])
            else Step(s, e) == s
  {
    ChildMayBeAdmitted(s, e);
    if MayAdmitChild(s, e) {
      var up := s.runs[e.of];
      var run := Step(s, e).runs[|s.runs|];
      forall r | Narrowable(r)
        ensures Covers(run.ceiling, r) <==>
                StillCovers(s, e.of, e.views, r) && Allows(e.agentRead, Agent(e.app), r) && (up.scope.Some? ==> Covers(up.scope.value, r))
      {
        ChildCeiling(s, e, r);
      }
    }
  }

  /** A run has finished exactly when it was told to. */
  lemma {:induction false} FinishedIff(states: seq<State>, es: seq<Event>, k: nat, a: nat)
    requires IsHistory(states, es) && k < |states|
    ensures a in states[k].finished <==> exists i :: 0 <= i < k && es[i] == Finish(a)
    decreases k
  {
    if k > 0 {
      FinishedIff(states, es, k - 1, a);
      assert StepAt(states, es, k - 1);
    }
  }
}
