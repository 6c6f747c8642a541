/** The worker pool's slots.  A slot is a permit of a semaphore, owned by reference counting: a
    registered worker, a spawn in progress, an approved execution, or a caller that copied an entry
    out of the map may hold it, and it returns when the last of them lets go. */
module Slots {
  import opened Common

  type Key = nat
  type Call = nat
  type Permit = nat

  datatype Holder =
    | Entry(key: Key)
    | Spawning(call: Call)
    | Approved(call: Call)
    | Copy(call: Call)

  datatype State = State(free: nat, held: map<Holder, Permit>, nextPermit: Permit)

  function Initial(cap: nat): State
  {
    State(cap, map[], 0)
  }

  /** Ends the life of one reference. */
  function Drop(s: State, h: Holder): State
  {
    if h !in s.held then s
    else
      var rest := s.held - {h};
      s.(held := rest, free := if s.held[h] in rest.Values then s.free else s.free + 1)
  }

  datatype Event =
    | Acquire(holder: Holder)
    | CopyEntry(call: Call, key: Key)
    | Register(call: Call, key: Key)
    | Release(holder: Holder)

  /** A permit is acquired only for a spawn or an approved execution, an entry is copied under the
      map's lock, and a spawned worker is registered only if its key is still free; letting go is
      always possible: eviction, reaping, stopping, invalidation, a lost race, a failed spawn, the
      end of an approved execution. */
  predicate Enabled(s: State, e: Event)
  {
    match e
    case Acquire(holder) => s.free > 0 && holder !in s.held && (holder.Spawning? || holder.Approved?)
    case CopyEntry(call, key) => Entry(key) in s.held && Copy(call) !in s.held
    case Register(call, key) => Spawning(call) in s.held && Entry(key) !in s.held
    case Release(holder) => holder in s.held
  }

  function Apply(s: State, e: Event): State
    requires Enabled(s, e)
  {
    match e
    case Acquire(holder) => State(s.free - 1, s.held[holder := s.nextPermit], s.nextPermit + 1)
    case CopyEntry(call, key) => s.(held := s.held[Copy(call) := s.held[Entry(key)]])
    case Register(call, key) => s.(held := (s.held - {Spawning(call)})[Entry(key) := s.held[Spawning(call)]])
    case Release(holder) => Drop(s, holder)
  }

  predicate Owner(h: Holder)
  {
    !h.Copy?
  }

  ghost function Owners(s: State): set<Holder>
  {
    set h | h in s.held && Owner(h)
  }

  /** Free permits and distinct held ones add up to the cap, and two owners never share one. */
  ghost predicate Inv(s: State, cap: nat)
  {
    && s.free + |s.held.Values| == cap
    && (forall h | h in s.held :: s.held[h] < s.nextPermit)
    && (forall g, h | g in s.held && h in s.held && Owner(g) && Owner(h) && g != h :: s.held[g] != s.held[h])
  }

  // ---- One step ----

  lemma InitialKeeps(cap: nat)
    ensures Inv(Initial(cap), cap)
  {
    var none: map<Holder, Permit> := map[];
    assert none.Values == {};
  }

  lemma ValuesWith(held: map<Holder, Permit>, h: Holder, p: Permit)
    requires h !in held
    ensures held[h := p].Values == held.Values + {p}
  {
    var more := held[h := p];
    forall q ensures q in more.Values <==> q in held.Values || q == p {
      if q in held.Values { var g :| g in held && held[g] == q; assert more[g] == q; }
      if q == p { assert more[h] == p; }
    }
  }

  lemma AcquireKeeps(s: State, cap: nat, holder: Holder)
    requires Inv(s, cap) && Enabled(s, Acquire(holder))
    ensures Inv(Apply(s, Acquire(holder)), cap)
  {
    var p, held' := s.nextPermit, s.held[holder := s.nextPermit];
    ValuesWith(s.held, holder, p);
    assert p !in s.held.Values;
    assert |held'.Values| == |s.held.Values| + 1;
  }

  lemma CopyKeeps(s: State, cap: nat, call: Call, key: Key)
    requires Inv(s, cap) && Enabled(s, CopyEntry(call, key))
    ensures Inv(Apply(s, CopyEntry(call, key)), cap)
  {
    var s' := Apply(s, CopyEntry(call, key));
    assert s'.held.Values == s.held.Values by {
      forall p ensures p in s'.held.Values <==> p in s.held.Values {
        if p in s.held.Values { var h :| h in s.held && s.held[h] == p; assert s'.held[h] == p; }
      }
    }
  }

  lemma RegisterKeeps(s: State, cap: nat, call: Call, key: Key)
    requires Inv(s, cap) && Enabled(s, Register(call, key))
    ensures Inv(Apply(s, Register(call, key)), cap)
  {
    var s' := Apply(s, Register(call, key));
    assert s'.held.Values == s.held.Values by {
      forall p ensures p in s'.held.Values <==> p in s.held.Values {
        if p in s.held.Values {
          var h :| h in s.held && s.held[h] == p;
          if h == Spawning(call) { assert s'.held[Entry(key)] == p; } else { assert s'.held[h] == p; }
        }
      }
    }
  }

  lemma ReleaseKeeps(s: State, cap: nat, h: Holder)
    requires Inv(s, cap)
    ensures Inv(Drop(s, h), cap)
  {
    if h in s.held {
      var rest, p := s.held - {h}, s.held[h];
      forall q ensures q in s.held.Values <==> q in rest.Values || q == p {
        if q in s.held.Values && q != p { var g :| g in s.held && s.held[g] == q; assert rest[g] == q; }
      }
      if p in rest.Values {
        assert rest.Values == s.held.Values;
      } else {
        assert rest.Values == s.held.Values - {p};
      }
    }
  }

  lemma StepKeeps(s: State, cap: nat, e: Event)
    requires Inv(s, cap) && Enabled(s, e)
    ensures Inv(Apply(s, e), cap)
  {
    match e
    case Acquire(holder) => AcquireKeeps(s, cap, holder);
    case CopyEntry(call, key) => CopyKeeps(s, cap, call, key);
    case Register(call, key) => RegisterKeeps(s, cap, call, key);
    case Release(holder) => ReleaseKeeps(s, cap, holder);
  }

  // ---- Whole runs ----

  ghost predicate StepAt(states: seq<State>, es: seq<Event>, k: nat)
    requires k < |es| && |states| == |es| + 1
  {
    Enabled(states[k], es[k]) && states[k + 1] == Apply(states[k], es[k])
  }

  ghost predicate IsRun(cap: nat, states: seq<State>, es: seq<Event>)
  {
    |states| == |es| + 1 && states[0] == Initial(cap) && forall k | 0 <= k < |es| :: StepAt(states, es, k)
  }

  lemma {:induction false} RunKeeps(cap: nat, states: seq<State>, es: seq<Event>, k: nat)
    requires IsRun(cap, states, es) && k < |states|
    ensures Inv(states[k], cap)
  {
    if k == 0 {
      InitialKeeps(cap);
    } else {
      RunKeeps(cap, states, es, k - 1);
      assert StepAt(states, es, k - 1);
      StepKeeps(states[k - 1], cap, es[k - 1]);
    }
  }

  lemma {:induction false} ImageSize(held: map<Holder, Permit>, owners: set<Holder>)
    requires owners <= held.Keys
    requires forall g, h | g in owners && h in owners && g != h :: held[g] != held[h]
    ensures |set h | h in owners :: held[h]| == |owners|
    decreases owners
  {
    if owners != {} {
      var x :| x in owners;
      ImageSize(held, owners - {x});
      var a, b := set h | h in owners :: held[h], set h | h in owners - {x} :: held[h];
      assert a == b + {held[x]};
    }
  }

  /** In every interleaving, free slots and distinct held permits make up the cap, so registered
      workers, spawns in progress and approved executions together never exceed it. */
  lemma PoolNeverExceedsCap(cap: nat, states: seq<State>, es: seq<Event>, k: nat)
    requires IsRun(cap, states, es) && k < |states|
    ensures var s := states[k]; s.free + |s.held.Values| == cap && |Owners(s)| <= cap - s.free
  {
    RunKeeps(cap, states, es, k);
    var s := states[k];
    ImageSize(s.held, Owners(s));
    var image := set h | h in Owners(s) :: s.held[h];
    assert image <= s.held.Values;
    SubsetSize(image, s.held.Values);
  }

  // ---- Who holds a slot, by what happened ----

  ghost predicate TakesAt(es: seq<Event>, i: nat, h: Holder)
  {
    i < |es| &&
    match es[i]
    case Acquire(holder) => holder == h
    case CopyEntry(call, _) => h == Copy(call)
    case Register(_, key) => h == Entry(key)
    case Release(_) => false
  }

  ghost predicate LeavesAt(es: seq<Event>, i: nat, h: Holder)
  {
    i < |es| && (es[i] == Release(h) || (es[i].Register? && h == Spawning(es[i].call)))
  }

  /** A holder holds a slot exactly since it acquired, copied or registered it, until it lets go or a
      spawn becomes a worker. */
  lemma HeldIff(cap: nat, states: seq<State>, es: seq<Event>, k: nat, h: Holder)
    requires IsRun(cap, states, es) && k < |states|
    ensures h in states[k].held <==> HeldSince((i: nat) => TakesAt(es, i, h), (i: nat) => LeavesAt(es, i, h), k)
  {
    var held := (i: nat) => i < |states| && h in states[i].held;
    var opens, closes := (i: nat) => TakesAt(es, i, h), (i: nat) => LeavesAt(es, i, h);
    forall i: nat | i < k ensures LedgerStep(held, opens, closes, i) {
      assert StepAt(states, es, i);
    }
    LedgerIff(held, opens, closes, k);
  }

  /** Which slot: a copy has its entry's, a registered worker its spawn's, and a slot just acquired is
      nobody else's; whoever else holds one keeps it. */
  lemma SlotsMove(s: State, cap: nat, e: Event, h: Holder)
    requires Inv(s, cap) && Enabled(s, e)
    ensures e.Acquire? ==> e.holder in Apply(s, e).held && Apply(s, e).held[e.holder] !in s.held.Values
    ensures e.CopyEntry? ==> Copy(e.call) in Apply(s, e).held && Apply(s, e).held[Copy(e.call)] == s.held[Entry(e.key)]
    ensures e.Register? ==> Entry(e.key) in Apply(s, e).held && Apply(s, e).held[Entry(e.key)] == s.held[Spawning(e.call)]
    ensures h in s.held && h in Apply(s, e).held ==> Apply(s, e).held[h] == s.held[h]
    ensures !e.Acquire? && !e.Release? ==> Apply(s, e).free == s.free
  {
    if e.Acquire? {
      forall p | p in s.held.Values ensures p != s.nextPermit { var g :| g in s.held && s.held[g] == p; }
    }
  }

  // ---- The pool as it is written ----

  const MAX_EVICTION_PROBES := 4

  /** Nobody but the new holder holds anything new. */
  predicate NoneElse(was: map<Holder, Permit>, now: map<Holder, Permit>, holder: Holder)
  {
    forall h | h in now && h != holder :: h in was && now[h] == was[h]
  }

  /** Whoever lost a slot was one of the first `n` candidates, and idle. */
  predicate Evicted(was: map<Holder, Permit>, now: map<Holder, Permit>, candidates: seq<Key>, idle: Key -> bool, n: nat)
  {
    forall h | h in was && h !in now :: h.Entry? && idle(h.key) && exists j :: 0 <= j < n && j < |candidates| && candidates[j] == h.key
  }

  /** Every idle worker among the first `n` candidates is gone. */
  predicate Exhausted(now: map<Holder, Permit>, candidates: seq<Key>, idle: Key -> bool, n: nat)
  {
    forall j | 0 <= j < n && j < |candidates| && idle(candidates[j]) :: Entry(candidates[j]) !in now
  }

  lemma ProbeCounts(was: map<Holder, Permit>, before: map<Holder, Permit>, now: map<Holder, Permit>, holder: Holder,
                    candidates: seq<Key>, idle: Key -> bool, i: nat)
    requires i < |candidates| && NoneElse(was, before, holder) && NoneElse(before, now, holder) && holder !in was
    requires Evicted(was, before, candidates, idle, i) && Exhausted(before, candidates, idle, i) && holder !in before && !holder.Entry?
    requires forall h | h in before && h !in now :: h == Entry(candidates[i]) && idle(candidates[i])
    requires idle(candidates[i]) ==> Entry(candidates[i]) !in now
    ensures NoneElse(was, now, holder) && Evicted(was, now, candidates, idle, i + 1) && Exhausted(now, candidates, idle, i + 1)
  {
    forall h | h in was && h !in now ensures h.Entry? && idle(h.key) && exists j :: 0 <= j < i + 1 && j < |candidates| && candidates[j] == h.key {
      if h in before { assert candidates[i] == h.key; }
    }
  }

  class Pool {
    const cap: nat
    var free: nat
    var held: map<Holder, Permit>
    var nextPermit: Permit

    function View(): State
      reads this
    {
      State(free, held, nextPermit)
    }

    constructor (cap: nat)
      ensures this.cap == cap && View() == Initial(cap) && Inv(View(), cap)
    {
      this.cap, free, held, nextPermit := cap, cap, map[], 0;
      new;
      InitialKeeps(cap);
    }

    method TryAcquire(holder: Holder) returns (ok: bool)
      requires Inv(View(), cap) && holder !in held && (holder.Spawning? || holder.Approved?)
      modifies this
      ensures ok <==> old(free) > 0
      ensures View() == if ok then Apply(old(View()), Acquire(holder)) else old(View())
      ensures Inv(View(), cap)
    {
      ok := free > 0;
      if ok {
        AcquireKeeps(View(), cap, holder);
        free, held, nextPermit := free - 1, held[holder := nextPermit], nextPermit + 1;
      }
    }

    /** The last reference to a permit gives it back. */
    method LetGo(holder: Holder)
      requires Inv(View(), cap)
      modifies this
      ensures View() == Drop(old(View()), holder) && Inv(View(), cap)
    {
      ReleaseKeeps(View(), cap, holder);
      if holder in held {
        var permit := held[holder];
        held := held - {holder};
        if permit !in held.Values { free := free + 1; }
      }
    }

    /** Evicts one idle worker and claims the slot, if that freed one: an entry that is still copied
        elsewhere keeps its permit. */
    method EvictFor(holder: Holder, key: Key) returns (ok: bool)
      requires Inv(View(), cap) && holder !in held && (holder.Spawning? || holder.Approved?)
      modifies this
      ensures Inv(View(), cap) && (ok <==> holder in held)
      ensures forall h | h in held && h != holder :: h in old(held) && held[h] == old(held)[h]
      ensures forall h | h in old(held) && h != Entry(key) :: h in held
      ensures Entry(key) !in held && (!ok ==> free == 0)
      ensures Entry(key) in old(held) && (forall h | h in old(held) && h != Entry(key) :: old(held)[h] != old(held)[Entry(key)]) ==> ok
    {
      LetGo(Entry(key));
      ok := TryAcquire(holder);
    }

    /** `take_slot`: a free slot, or that of an idle worker among the four least recently used ones.
        It fails only with no slot free and every idle one of the four gone. */
    method TakeSlot(holder: Holder, candidates: seq<Key>, idle: Key -> bool) returns (ok: bool)
      requires Inv(View(), cap) && holder !in held && (holder.Spawning? || holder.Approved?)
      modifies this
      ensures Inv(View(), cap) && (ok <==> holder in held) && NoneElse(old(held), held, holder)
      ensures Evicted(old(held), held, candidates, idle, 4)
      ensures old(free) > 0 ==> ok && old(held).Keys <= held.Keys
      ensures !ok ==> free == 0 && Exhausted(held, candidates, idle, 4)
    {
      ok := TryAcquire(holder);
      if ok { return; }
      var i := 0;
      while !ok && i < |candidates| && i < MAX_EVICTION_PROBES
        invariant 0 <= i <= 4 && Inv(View(), cap) && (ok <==> holder in held) && NoneElse(old(held), held, holder)
        invariant Evicted(old(held), held, candidates, idle, i)
        invariant !ok ==> free == 0 && Exhausted(held, candidates, idle, i)
      {
        ghost var before := held;
        var next := Probe(holder, candidates, idle, i);
        ProbeCounts(old(held), before, held, holder, candidates, idle, i);
        i := next;
        ok := holder in held;
      }
    }

    /** One candidate: it goes if it is idle. */
    method Probe(holder: Holder, candidates: seq<Key>, idle: Key -> bool, i: nat) returns (next: nat)
      requires Inv(View(), cap) && holder !in held && (holder.Spawning? || holder.Approved?) && i < |candidates| && free == 0
      modifies this
      ensures next == i + 1 && Inv(View(), cap) && NoneElse(old(held), held, holder) && (holder !in held ==> free == 0)
      ensures forall h | h in old(held) && h !in held :: h == Entry(candidates[i]) && idle(candidates[i])
      ensures idle(candidates[i]) ==> Entry(candidates[i]) !in held
    {
      if idle(candidates[i]) && Entry(candidates[i]) in held { var _ := EvictFor(holder, candidates[i]); }
      next := i + 1;
    }

    /** Stopping an app, stopping all, reaping and invalidation: the listed workers leave the map one by
        one, and each slot returns unless somebody else still holds its permit. */
    method StopWorkers(keys: seq<Key>)
      requires Inv(View(), cap)
      modifies this
      ensures Inv(View(), cap)
      ensures forall h :: h in held <==> h in old(held) && !(h.Entry? && h.key in keys)
      ensures forall h | h in held :: held[h] == old(held)[h]
    {
      for i := 0 to |keys|
        invariant Inv(View(), cap)
        invariant forall h :: h in held <==> h in old(held) && !(h.Entry? && h.key in keys[..i])
        invariant forall h | h in held :: held[h] == old(held)[h]
      {
        assert keys[..i + 1] == keys[..i] + [keys[i]];
        LetGo(Entry(keys[i]));
      }
      assert keys[..|keys|] == keys;
    }

    /** `get_or_spawn` from the point where no running worker was found, with nobody else about: a
        slot first, then the spawn, then the entry.  Either way the spawn's own reference is gone at
        the end. */
    method SpawnInto(call: Call, key: Key, candidates: seq<Key>, idle: Key -> bool, spawns: bool) returns (ok: bool)
      requires Inv(View(), cap) && Spawning(call) !in held && Entry(key) !in held
      modifies this
      ensures Inv(View(), cap) && Spawning(call) !in held
      ensures (ok <==> Entry(key) in held) && (ok ==> spawns) && (old(free) > 0 && spawns ==> ok)
      ensures NoneElse(old(held), held, Entry(key)) && Evicted(old(held), held, candidates, idle, 4)
    {
      ok := TakeSlot(Spawning(call), candidates, idle);
      if !ok { return; }
      if !spawns {
        LetGo(Spawning(call));
        return false;
      }
      RegisterKeeps(View(), cap, call, key);
      held := (held - {Spawning(call)})[Entry(key) := held[Spawning(call)]];
      return true;
    }
  }
}
