/** Cron schedules as they are stored and changed: the operations, and the synchronisation with a
    manifest, which works from a list of schedules it read at the start. */
module CronSync {
  import opened Common
  import opened Crons

  datatype Definition = Definition(
    name: string,
    schedule: string,
    timezone: Option<string>,
    run: Option<string>,
    payload: Option<Payload>,
    overlap: string)

  /** The payload a definition asks for; a method needs an object to go into. */
  function PayloadOf(d: Definition): Option<Payload>
  {
    var payload := OrElse(d.payload, Object(map[]));
    if d.run.None? then Some(payload)
    else if payload.Object? then Some(Object(payload.entries["method" := d.run.value]))
    else None
  }

  /** A method needs an object to go into. */
  predicate HasPayload(d: Definition)
  {
    d.run.Some? && d.payload.Some? ==> d.payload.value.Object?
  }

  /** The payload that goes with a definition: the declared one or an empty object, and with a method
      every declared entry but its "method", which is the method. */
  ghost predicate Carries(d: Definition, p: Payload)
  {
    var declared := if d.payload.Some? then d.payload.value else Object(map[]);
    if d.run.None? then p == declared
    else
      && declared.Object? && p.Object? && "method" in p.entries && p.entries["method"] == d.run.value
      && forall key | key != "method" ::
           (key in p.entries <==> key in declared.entries) && (key in p.entries ==> p.entries[key] == declared.entries[key])
  }

  lemma PayloadIs(d: Definition)
    ensures PayloadOf(d).Some? <==> HasPayload(d)
    ensures HasPayload(d) ==> Carries(d, PayloadOf(d).value)
  {
  }

  datatype Entry = Entry(id: Id, row: Row)

  /** The schedules of one app, in whatever order they were listed. */
  ghost predicate IsListing(s: State, app: string, existing: seq<Entry>)
  {
    && (forall i | 0 <= i < |existing| :: existing[i].id in s.table && s.table[existing[i].id] == existing[i].row && existing[i].row.app == app)
    && (forall i, j | 0 <= i < j < |existing| :: existing[i].id != existing[j].id)
    && (forall id :: id in s.table && s.table[id].app == app ==> Listed(existing, id))
  }

  ghost predicate Listed(existing: seq<Entry>, id: Id)
  {
    exists i :: 0 <= i < |existing| && existing[i].id == id
  }

  function FindNamed(existing: seq<Entry>, name: string): Option<Id>
  {
    if existing == [] then None
    else if existing[0].row.name == name then Some(existing[0].id)
    else FindNamed(existing[1..], name)
  }

  lemma {:induction false} FoundIsListed(existing: seq<Entry>, name: string)
    ensures FindNamed(existing, name).Some? ==>
              exists i :: 0 <= i < |existing| && existing[i].row.name == name && existing[i].id == FindNamed(existing, name).value
    ensures FindNamed(existing, name).None? ==> forall i | 0 <= i < |existing| :: existing[i].row.name != name
    decreases |existing|
  {
    if existing != [] && existing[0].row.name != name {
      FoundIsListed(existing[1..], name);
      if FindNamed(existing, name).Some? {
        var i :| 0 <= i < |existing[1..]| && existing[1..][i].row.name == name && existing[1..][i].id == FindNamed(existing, name).value;
        assert existing[i + 1].row.name == name;
      } else {
        assert forall i | 0 < i < |existing| :: existing[i] == existing[1..][i - 1];
      }
    }
  }

  /** The last of the first `j` definitions that has this name. */
  function LastNamed(defs: seq<Definition>, j: nat, name: string): (r: Option<Definition>)
    requires j <= |defs|
    ensures r.Some? ==> r.value.name == name
  {
    if j == 0 then None
    else if defs[j - 1].name == name then Some(defs[j - 1])
    else LastNamed(defs, j - 1, name)
  }

  predicate Named(defs: seq<Definition>, j: nat, name: string)
    requires j <= |defs|
  {
    LastNamed(defs, j, name).Some?
  }

  /** It is there if the name is, and no later one has the name. */
  lemma {:induction false} LastNamedIs(defs: seq<Definition>, j: nat, i: nat)
    requires i < j <= |defs|
    ensures (forall x | i < x < j :: defs[x].name != defs[i].name) ==> LastNamed(defs, j, defs[i].name) == Some(defs[i])
    decreases j
  {
    if defs[j - 1].name != defs[i].name { LastNamedIs(defs, j - 1, i); }
  }

  lemma {:induction false} NamedIff(defs: seq<Definition>, j: nat, name: string)
    requires j <= |defs|
    ensures Named(defs, j, name) <==> exists i :: 0 <= i < j && defs[i].name == name
    decreases j
  {
    if j > 0 { NamedIff(defs, j - 1, name); }
  }

  // ---- Where synchronisation leads ----

  /** Can this definition be applied?  Only a new schedule has its name checked. */
  ghost predicate Applicable(k: Rules, s: State, app: string, d: Definition)
  {
    && HasPayload(d) && k.validSchedule(d.schedule) && ValidOverlap(d.overlap) && k.accepts(d.schedule)
    && (NameTaken(s, app, d.name) || ValidName(d.name))
  }

  /** Definition `i` goes through: it is applicable, and it does not name a second time a schedule
      that an earlier definition has just created. */
  ghost predicate Accepted(k: Rules, before: State, app: string, defs: seq<Definition>, i: nat)
    requires i < |defs|
  {
    Applicable(k, before, app, defs[i]) && (NameTaken(before, app, defs[i].name) || !Named(defs, i, defs[i].name))
  }

  /** The schedule of a definition: enabled, with the declared schedule, payload and overlap.  A
      schedule that was there keeps its id, timezone and creator. */
  ghost predicate Declared(before: State, s: State, app: string, d: Definition, createdBy: Option<nat>, id: Id)
  {
    && id in s.table
    && var row := s.table[id];
       && row.app == app && row.name == d.name && row.enabled
       && row.schedule == d.schedule && Carries(d, row.payload) && row.overlap == d.overlap
       && if id in before.table then Continued(before, s, id)
          else !NameTaken(before, app, d.name) && row.timezone == d.timezone && row.createdBy == createdBy
  }

  /** A schedule that was there is the same schedule. */
  ghost predicate Continued(before: State, s: State, id: Id)
    requires id in before.table
  {
    && id in s.table
    && var was, row := before.table[id], s.table[id];
       row.app == was.app && row.name == was.name && row.timezone == was.timezone && row.createdBy == was.createdBy
  }

  ghost predicate HasDeclared(before: State, s: State, app: string, d: Definition, createdBy: Option<nat>)
  {
    exists id :: Declared(before, s, app, d, createdBy, id)
  }

  ghost predicate OtherAppsSame(before: State, s: State, app: string)
  {
    forall id :: OtherSame(before, s, app, id)
  }

  ghost predicate OtherSame(before: State, s: State, app: string, id: Id)
  {
    && ((id in s.table && s.table[id].app != app) <==> (id in before.table && before.table[id].app != app))
    && (id in s.table && s.table[id].app != app ==> s.table[id] == before.table[id])
  }

  /** After the first `j` definitions: every name among them has the schedule its last definition
      declares, the others still have theirs from before, and no other name is left. */
  ghost predicate Progress(before: State, s: State, app: string, defs: seq<Definition>, createdBy: Option<nat>, j: nat)
    requires j <= |defs|
  {
    && Inv(s) && OtherAppsSame(before, s, app) && before.nextId <= s.nextId
    && (forall name :: Named(defs, j, name) ==> HasDeclared(before, s, app, LastNamed(defs, j, name).value, createdBy))
    && (forall id :: id in s.table && s.table[id].app == app ==> Accounted(before, s, defs, j, id))
    && (forall id :: Lasting(before, app, defs, id) ==> Continued(before, s, id))
  }

  ghost predicate Lasting(before: State, app: string, defs: seq<Definition>, id: Id)
  {
    id in before.table && before.table[id].app == app && Named(defs, |defs|, before.table[id].name)
  }

  ghost predicate Accounted(before: State, s: State, defs: seq<Definition>, j: nat, id: Id)
    requires id in s.table && j <= |defs|
  {
    Named(defs, j, s.table[id].name) || (id in before.table && s.table[id] == before.table[id] && Named(defs, |defs|, s.table[id].name))
  }

  /** A change at one schedule that gives it what the next definition declares. */
  ghost predicate Applies(before: State, s: State, s': State, app: string, d: Definition, createdBy: Option<nat>, id: Id)
  {
    && Inv(s') && OnlyAt(s, s', id) && s.nextId <= s'.nextId
    && Declared(before, s', app, d, createdBy, id)
    && (id in s.table ==> s.table[id].app == app && s.table[id].name == d.name)
  }

  lemma NextDeclared(before: State, s: State, s': State, app: string, defs: seq<Definition>, createdBy: Option<nat>, j: nat, id: Id)
    requires j < |defs| && Progress(before, s, app, defs, createdBy, j) && Applies(before, s, s', app, defs[j], createdBy, id)
    ensures Progress(before, s', app, defs, createdBy, j + 1)
  {
    var next := j + 1;
    OthersStay(before, s, s', app, id);
    forall name | Named(defs, next, name) ensures HasDeclared(before, s', app, LastNamed(defs, next, name).value, createdBy) {
      if name != defs[j].name { DeclaredStays(before, s, s', app, LastNamed(defs, j, name).value, defs[j], createdBy, id); }
    }
    forall x | x in s'.table && s'.table[x].app == app ensures Accounted(before, s', defs, next, x) {
      if x != id { assert SameAt(s, s', x) && Accounted(before, s, defs, j, x); }
    }
    forall x | Lasting(before, app, defs, x) ensures Continued(before, s', x) {
      if x != id { assert SameAt(s, s', x) && Continued(before, s, x); }
    }
  }

  lemma DeclaredStays(before: State, s: State, s': State, app: string, d: Definition, e: Definition, createdBy: Option<nat>, id: Id)
    requires HasDeclared(before, s, app, d, createdBy) && Applies(before, s, s', app, e, createdBy, id) && d.name != e.name
    ensures HasDeclared(before, s', app, d, createdBy)
  {
    var x :| Declared(before, s, app, d, createdBy, x);
    assert x != id && SameAt(s, s', x);
    assert Declared(before, s', app, d, createdBy, x);
  }

  lemma OthersStay(before: State, s: State, s': State, app: string, id: Id)
    requires OtherAppsSame(before, s, app) && OnlyAt(s, s', id)
    requires id in s'.table ==> s'.table[id].app == app
    requires id in s.table ==> s.table[id].app == app
    ensures OtherAppsSame(before, s', app)
  {
    forall x ensures OtherSame(before, s', app, x) { assert OtherSame(before, s, app, x) && (x != id ==> SameAt(s, s', x)); }
  }

  // ---- The first loop ----

  ghost predicate Waiting(existing: seq<Entry>, i: nat, id: Id)
  {
    exists k :: i <= k < |existing| && existing[k].id == id
  }

  ghost predicate Kept(before: State, app: string, defs: seq<Definition>, id: Id)
  {
    id in before.table && (before.table[id].app == app ==> Named(defs, |defs|, before.table[id].name))
  }

  lemma NowDecided(before: State, app: string, existing: seq<Entry>, defs: seq<Definition>, i: nat)
    requires IsListing(before, app, existing) && i < |existing|
    ensures forall id :: Waiting(existing, i, id) <==> id == existing[i].id || Waiting(existing, i + 1, id)
    ensures !Waiting(existing, i + 1, existing[i].id)
    ensures Kept(before, app, defs, existing[i].id) <==> existing[i].row.name in set d | d in defs :: d.name
  {
    NamedIff(defs, |defs|, existing[i].row.name);
    if existing[i].row.name in set d | d in defs :: d.name {
      var d :| d in defs && d.name == existing[i].row.name;
      var k :| 0 <= k < |defs| && defs[k] == d;
    }
  }

  /** Before listed entry `i` is looked at: what is left is what will be kept or is still waiting. */
  ghost predicate CleanAt(before: State, s: State, app: string, existing: seq<Entry>, defs: seq<Definition>, i: nat, id: Id)
  {
    && (id in s.table <==> id in before.table && (Kept(before, app, defs, id) || Waiting(existing, i, id)))
    && (id in s.table ==> s.table[id] == before.table[id])
  }

  ghost predicate Cleaning(before: State, s: State, app: string, existing: seq<Entry>, defs: seq<Definition>, i: nat)
  {
    && Inv(s) && before.nextId <= s.nextId
    && forall id :: CleanAt(before, s, app, existing, defs, i, id)
  }

  lemma CleaningStarts(before: State, app: string, existing: seq<Entry>, defs: seq<Definition>)
    requires Inv(before) && IsListing(before, app, existing)
    ensures Cleaning(before, before, app, existing, defs, 0)
  {
    forall id ensures CleanAt(before, before, app, existing, defs, 0, id) {
      if id in before.table && before.table[id].app == app {
        assert Listed(existing, id);
        assert Waiting(existing, 0, id);
      }
    }
  }

  lemma CleaningDeletes(before: State, s: State, app: string, existing: seq<Entry>, defs: seq<Definition>, i: nat)
    requires IsListing(before, app, existing) && i < |existing| && Cleaning(before, s, app, existing, defs, i)
    requires existing[i].row.name !in set d | d in defs :: d.name
    ensures Delete(s, app, existing[i].id).Some?
    ensures Cleaning(before, Delete(s, app, existing[i].id).value, app, existing, defs, i + 1)
  {
    var gone := existing[i].id;
    NowDecided(before, app, existing, defs, i);
    assert CleanAt(before, s, app, existing, defs, i, gone);
    DeleteSucceedsIff(s, app, gone);
    DeleteKeeps(s, app, gone);
    var s' := Delete(s, app, gone).value;
    DropJobFrees(s, gone);
    var next := i + 1;
    forall id ensures CleanAt(before, s', app, existing, defs, next, id) {
      assert CleanAt(before, s, app, existing, defs, i, id) && (id != gone ==> SameAt(s, s', id));
    }
  }

  lemma CleaningKeeps(before: State, s: State, app: string, existing: seq<Entry>, defs: seq<Definition>, i: nat)
    requires IsListing(before, app, existing) && i < |existing| && Cleaning(before, s, app, existing, defs, i)
    requires existing[i].row.name in set d | d in defs :: d.name
    ensures Cleaning(before, s, app, existing, defs, i + 1)
  {
    NowDecided(before, app, existing, defs, i);
    var next := i + 1;
    forall id ensures CleanAt(before, s, app, existing, defs, next, id) { assert CleanAt(before, s, app, existing, defs, i, id); }
  }

  lemma CleaningEnds(before: State, s: State, app: string, existing: seq<Entry>, defs: seq<Definition>, createdBy: Option<nat>)
    requires IsListing(before, app, existing) && Cleaning(before, s, app, existing, defs, |existing|)
    ensures Progress(before, s, app, defs, createdBy, 0)
  {
    forall id ensures OtherSame(before, s, app, id) { assert CleanAt(before, s, app, existing, defs, |existing|, id); }
    forall id | id in s.table && s.table[id].app == app ensures Accounted(before, s, defs, 0, id) {
      assert CleanAt(before, s, app, existing, defs, |existing|, id);
    }
    forall id | Lasting(before, app, defs, id) ensures Continued(before, s, id) {
      assert CleanAt(before, s, app, existing, defs, |existing|, id);
    }
  }

  // ---- The second loop ----

  lemma FoundMeansTaken(before: State, app: string, existing: seq<Entry>, name: string)
    requires IsListing(before, app, existing)
    ensures FindNamed(existing, name).Some? <==> NameTaken(before, app, name)
    ensures FindNamed(existing, name).Some? ==>
              var id := FindNamed(existing, name).value; id in before.table && before.table[id].app == app && before.table[id].name == name
  {
    FoundIsListed(existing, name);
    if NameTaken(before, app, name) {
      var id :| id in before.table && before.table[id].app == app && before.table[id].name == name;
      assert Listed(existing, id);
    }
  }

  function EditFor(d: Definition): Edit
  {
    Edit(Some(d.schedule), PayloadOf(d), Some(d.overlap), Some(true))
  }

  lemma UpdateStep(k: Rules, before: State, s: State, app: string, defs: seq<Definition>, createdBy: Option<nat>, j: nat, id: Id)
    requires j < |defs| && Progress(before, s, app, defs, createdBy, j) && PayloadOf(defs[j]).Some?
    requires id in before.table && before.table[id].app == app && before.table[id].name == defs[j].name
    ensures Update(k, s, app, id, EditFor(defs[j])).Some? <==> Accepted(k, before, app, defs, j)
    ensures Update(k, s, app, id, EditFor(defs[j])).Some? ==>
              Applies(before, s, Update(k, s, app, id, EditFor(defs[j])).value, app, defs[j], createdBy, id)
  {
    NamedIff(defs, |defs|, defs[j].name);
    assert Lasting(before, app, defs, id) && Continued(before, s, id);
    assert NameTaken(before, app, defs[j].name);
    PayloadIs(defs[j]);
    assert EditFits(s.table[id], Edited(s.table[id], EditFor(defs[j])), EditFor(defs[j]));
    UpdateSucceedsIff(k, s, app, id, EditFor(defs[j]));
    if Update(k, s, app, id, EditFor(defs[j])).Some? {
      UpdateKeeps(k, s, app, id, EditFor(defs[j]));
      DropJobFrees(s, id);
    }
  }

  function NewFor(d: Definition, createdBy: Option<nat>): NewCron
    requires PayloadOf(d).Some?
  {
    NewCron(d.name, d.schedule, d.timezone, PayloadOf(d).value, d.overlap, createdBy)
  }

  /** A name that was free is taken by now exactly when an earlier definition has it. */
  lemma TakenByNow(before: State, s: State, app: string, defs: seq<Definition>, createdBy: Option<nat>, j: nat, name: string)
    requires j <= |defs| && Progress(before, s, app, defs, createdBy, j) && !NameTaken(before, app, name)
    ensures NameTaken(s, app, name) <==> Named(defs, j, name)
  {
    forall id | id in s.table && s.table[id].app == app && s.table[id].name == name ensures Named(defs, j, name) {
      assert Accounted(before, s, defs, j, id);
    }
    if Named(defs, j, name) {
      assert HasDeclared(before, s, app, LastNamed(defs, j, name).value, createdBy);
    }
  }

  lemma CreateStep(k: Rules, before: State, s: State, app: string, defs: seq<Definition>, createdBy: Option<nat>, j: nat)
    requires Unused(before) && j < |defs| && Progress(before, s, app, defs, createdBy, j)
    requires !NameTaken(before, app, defs[j].name) && PayloadOf(defs[j]).Some?
    ensures Create(k, s, app, NewFor(defs[j], createdBy)).Some? <==> Accepted(k, before, app, defs, j)
    ensures Create(k, s, app, NewFor(defs[j], createdBy)).Some? ==>
              Applies(before, s, Create(k, s, app, NewFor(defs[j], createdBy)).value, app, defs[j], createdBy, s.nextId)
  {
    TakenByNow(before, s, app, defs, createdBy, j, defs[j].name);
    PayloadIs(defs[j]);
    if Create(k, s, app, NewFor(defs[j], createdBy)).Some? {
      CreateKeeps(k, s, app, NewFor(defs[j], createdBy));
    }
  }

  // ---- The store ----

  class Store {
    var table: map<Id, Row>
    var jobs: map<Id, Job>
    var nextId: Id
    var nextJob: nat

    function View(): State
      reads this
    {
      State(table, jobs, nextId, nextJob)
    }

    constructor ()
      ensures View() == EMPTY && Inv(View())
    {
      table, jobs, nextId, nextJob := map[], map[], 0, 0;
    }

    /** The transaction is rolled back. */
    method RollBack(snapshot: State)
      modifies this
      ensures View() == snapshot
    {
      table, jobs, nextId, nextJob := snapshot.table, snapshot.jobs, snapshot.nextId, snapshot.nextJob;
    }

    method SchedulePgCron(id: Id, schedule: string, command: Command) returns (jobId: nat)
      modifies `jobs, `nextJob
      ensures View() == Schedule(old(View()), id, schedule, command) && id in jobs && jobId == jobs[id].jobId
    {
      if id in jobs {
        jobs := jobs[id := Job(jobs[id].jobId, schedule, command)];
      } else {
        jobs := jobs[id := Job(nextJob, schedule, command)];
        nextJob := nextJob + 1;
      }
      jobId := jobs[id].jobId;
    }

    method UnschedulePgCron(jobId: nat) returns (ok: bool)
      modifies `jobs
      ensures ok <==> Unschedule(old(View()), jobId).Some?
      ensures View() == OrElse(Unschedule(old(View()), jobId), old(View()))
    {
      ok := exists id :: id in jobs && jobs[id].jobId == jobId;
      if ok { jobs := map id | id in jobs && jobs[id].jobId != jobId :: jobs[id]; }
    }

    method Insert(app: string, c: NewCron) returns (id: Id, row: Row)
      modifies `table, `nextId
      ensures id == old(nextId) && nextId == id + 1 && table == old(table)[id := row]
      ensures row == Row(app, c.name, c.schedule, c.timezone, c.payload, c.overlap, true, None, c.createdBy)
    {
      id, nextId := nextId, nextId + 1;
      row := Row(app, c.name, c.schedule, c.timezone, c.payload, c.overlap, true, None, c.createdBy);
      table := table[id := row];
    }

    /** Inserts the schedule, registers its job and records the job's number; an error anywhere
        rolls the whole transaction back. */
    method RunCreate(k: Rules, app: string, c: NewCron) returns (ok: bool)
      modifies this
      ensures ok <==> Create(k, old(View()), app, c).Some?
      ensures View() == OrElse(Create(k, old(View()), app, c), old(View()))
    {
      var snapshot := View();
      if !ValidName(c.name) || !k.validSchedule(c.schedule) || !ValidOverlap(c.overlap) || NameTaken(snapshot, app, c.name) { return false; }
      var id, row := Insert(app, c);
      if !k.accepts(c.schedule) {
        RollBack(snapshot);
        return false;
      }
      var jobId := SchedulePgCron(id, c.schedule, CommandFor(id, row));
      table := table[id := row.(jobId := Some(jobId))];
      ok := true;
    }

    /** A schedule is made exactly when its values and its name allow it, together with its job. */
    method CreateCron(k: Rules, app: string, c: NewCron) returns (ok: bool)
      requires Inv(View())
      modifies this
      ensures ok <==> MayCreate(k, old(View()), app, c)
      ensures ok ==> && OnlyAt(old(View()), View(), old(nextId)) && old(nextId) !in old(table) && old(nextId) in table
                     && table[old(nextId)] == Row(app, c.name, c.schedule, c.timezone, c.payload, c.overlap, true, Some(old(nextJob)), c.createdBy)
                     && old(nextId) in jobs && Fires(jobs[old(nextId)], old(nextId), table[old(nextId)])
      ensures Inv(View()) && View() == OrElse(Create(k, old(View()), app, c), old(View()))
    {
      ghost var before := View();
      ok := RunCreate(k, app, c);
      CreateSucceedsIff(k, before, app, c);
      if ok {
        CreateKeeps(k, before, app, c);
        assert Agrees(View(), before.nextId);
      }
    }

    /** Takes the old job away and registers a new one for an enabled schedule; a schedule that
        pg_cron refuses brings the old job back. */
    method RunUpdate(k: Rules, app: string, id: Id, e: Edit) returns (ok: bool)
      requires Inv(View())
      modifies this
      ensures ok <==> Update(k, old(View()), app, id, e).Some?
      ensures View() == OrElse(Update(k, old(View()), app, id, e), old(View()))
    {
      if e.schedule.Some? && !k.validSchedule(e.schedule.value) { return false; }
      if e.overlap.Some? && !ValidOverlap(e.overlap.value) { return false; }
      if id !in table || table[id].app != app { return false; }
      var snapshot := View();
      var row := Edited(table[id], e);
      ok := DropJobOf(id);
      if row.enabled {
        if !k.accepts(row.schedule) {
          RollBack(snapshot);
          return false;
        }
        var jobId := SchedulePgCron(id, row.schedule, CommandFor(id, row));
        table := table[id := row.(jobId := Some(jobId))];
      } else {
        table := table[id := row.(jobId := None)];
      }
    }

    /** An update goes through exactly when the schedule is there and its new values are accepted, and
        then only it has changed, together with its job. */
    method UpdateCron(k: Rules, app: string, id: Id, e: Edit) returns (ok: bool)
      requires Inv(View())
      modifies this
      ensures ok <==> MayUpdate(k, old(View()), app, id, e)
      ensures ok ==> && OnlyAt(old(View()), View(), id) && id in table && EditFits(old(table)[id], table[id], e)
                     && (id in jobs <==> table[id].enabled) && (id in jobs ==> Fires(jobs[id], id, table[id]))
      ensures Inv(View()) && View() == OrElse(Update(k, old(View()), app, id, e), old(View()))
    {
      ghost var before := View();
      ok := RunUpdate(k, app, id, e);
      UpdateSucceedsIff(k, before, app, id, e);
      if ok {
        UpdateKeeps(k, before, app, id, e);
        assert Agrees(View(), id);
      }
    }

    /** In a state where both sides agree the job of a schedule can always be taken away. */
    method DropJobOf(id: Id) returns (ok: bool)
      requires Inv(View()) && id in table
      modifies `jobs
      ensures ok && jobs == old(jobs) - {id} && Some(View()) == DropJob(old(View()), old(table)[id])
    {
      DropJobFrees(View(), id);
      ok := true;
      if table[id].jobId.Some? { ok := UnschedulePgCron(table[id].jobId.value); }
    }

    /** Takes a schedule and its job away together. */
    method DeleteCron(app: string, id: Id) returns (ok: bool)
      requires Inv(View())
      modifies this
      ensures ok <==> id in old(table) && old(table)[id].app == app
      ensures ok ==> OnlyAt(old(View()), View(), id) && id !in table && id !in jobs
      ensures Inv(View()) && View() == OrElse(Delete(old(View()), app, id), old(View()))
    {
      if id !in table || table[id].app != app { return false; }
      ghost var before := View();
      ok := DropJobOf(id);
      table := table - {id};
      DeleteKeeps(before, app, id);
    }

    /** Deletes the listed schedules the manifest no longer names. */
    method DeleteUnnamed(app: string, existing: seq<Entry>, defs: seq<Definition>, ghost createdBy: Option<nat>)
      requires Inv(View()) && IsListing(View(), app, existing)
      modifies this
      ensures Progress(old(View()), View(), app, defs, createdBy, 0)
    {
      ghost var before := View();
      var names := set d | d in defs :: d.name;
      CleaningStarts(before, app, existing, defs);
      for i := 0 to |existing|
        invariant Cleaning(before, View(), app, existing, defs, i)
      {
        ghost var s := View();
        if existing[i].row.name !in names {
          CleaningDeletes(before, s, app, existing, defs, i);
          var ok := DeleteCron(app, existing[i].id);
        } else {
          CleaningKeeps(before, s, app, existing, defs, i);
        }
      }
      CleaningEnds(before, View(), app, existing, defs, createdBy);
    }

    /** One definition against the list read at the start: update the schedule of its name there,
        or create one. */
    method ApplyDefinition(k: Rules, app: string, existing: seq<Entry>, defs: seq<Definition>, j: nat, createdBy: Option<nat>,
                           ghost before: State) returns (ok: bool)
      requires Inv(before) && IsListing(before, app, existing) && j < |defs|
      requires Progress(before, View(), app, defs, createdBy, j)
      modifies this
      ensures ok <==> Accepted(k, before, app, defs, j)
      ensures Progress(before, View(), app, defs, createdBy, if ok then j + 1 else j)
    {
      PayloadIs(defs[j]);
      var payload := PayloadOf(defs[j]);
      if payload.None? { return false; }
      ghost var s := View();
      var found := FindNamed(existing, defs[j].name);
      FoundMeansTaken(before, app, existing, defs[j].name);
      if found.Some? {
        UpdateStep(k, before, s, app, defs, createdBy, j, found.value);
        ok := RunUpdate(k, app, found.value, EditFor(defs[j]));
        if ok { NextDeclared(before, s, View(), app, defs, createdBy, j, found.value); }
      } else {
        CreateStep(k, before, s, app, defs, createdBy, j);
        ok := RunCreate(k, app, NewFor(defs[j], createdBy));
        if ok { NextDeclared(before, s, View(), app, defs, createdBy, j, s.nextId); }
      }
    }

    /** The definitions one after the other, until one does not go through. */
    method ApplyDefinitions(k: Rules, app: string, existing: seq<Entry>, defs: seq<Definition>, createdBy: Option<nat>, ghost before: State)
      returns (ok: bool, ghost done: nat)
      requires Inv(before) && IsListing(before, app, existing) && Progress(before, View(), app, defs, createdBy, 0)
      modifies this
      ensures done <= |defs| && (ok <==> done == |defs|) && Progress(before, View(), app, defs, createdBy, done)
      ensures (forall i | 0 <= i < done :: Accepted(k, before, app, defs, i)) && (!ok ==> !Accepted(k, before, app, defs, done))
    {
      done := 0;
      for j := 0 to |defs|
        invariant done == j && Progress(before, View(), app, defs, createdBy, j)
        invariant forall i | 0 <= i < j :: Accepted(k, before, app, defs, i)
      {
        ok := ApplyDefinition(k, app, existing, defs, j, createdBy, before);
        if !ok { return; }
        done := j + 1;
      }
      ok := true;
    }

    /** Brings the schedules of an app to what its manifest declares: undeclared ones go, declared
        ones are updated or created, one transaction each.  It stops at the first definition that
        does not go through, with the ones before it in force.  The timezone of a definition arrives
        exactly when every schedule of its name that was there had it already. */
    method SyncFromManifest(k: Rules, app: string, existing: seq<Entry>, defs: seq<Definition>, createdBy: Option<nat>)
      returns (ok: bool, ghost done: nat)
      requires Inv(View()) && IsListing(View(), app, existing)
      modifies this
      ensures done <= |defs| && (ok <==> done == |defs|) && Progress(old(View()), View(), app, defs, createdBy, done)
      ensures (forall i | 0 <= i < done :: Accepted(k, old(View()), app, defs, i)) && (!ok ==> !Accepted(k, old(View()), app, defs, done))
      ensures ok ==> TimezonesFollowIff(old(View()), View(), app, defs)
    {
      ghost var before := View();
      DeleteUnnamed(app, existing, defs, createdBy);
      ok, done := ApplyDefinitions(k, app, existing, defs, createdBy, before);
      if ok { TimezonesFollow(k, before, View(), app, defs, createdBy); }
    }

    /** Uninstalling an app: its jobs are unscheduled one by one, then its rows go together. */
    method DeleteAllForApp(app: string, existing: seq<Entry>)
      requires Inv(View()) && IsListing(View(), app, existing)
      modifies `table, `jobs
      ensures Inv(View()) && View() == DeleteAll(old(View()), app)
      ensures (forall id :: id in table <==> id in old(table) && old(table)[id].app != app) && (forall id | id in jobs :: id in table)
      ensures forall id | id in table :: SameAt(old(View()), View(), id)
    {
      ghost var before := View();
      assert forall id :: Gone(existing, 0, id) ==> false;
      for i := 0 to |existing|
        invariant table == before.table && JobsLeft(before, jobs, existing, i)
      {
        DropListed(before, jobs, app, existing, i);
        if existing[i].row.jobId.Some? {
          var ok := UnschedulePgCron(existing[i].row.jobId.value);
        }
      }
      table := map id | id in table && table[id].app != app :: table[id];
      AllDropped(before, jobs, app, existing);
      DeleteAllKeeps(before, app);
    }
  }

  // ---- Uninstalling ----

  ghost predicate Gone(existing: seq<Entry>, i: nat, id: Id)
  {
    exists x :: 0 <= x < i <= |existing| && existing[x].id == id
  }

  ghost predicate JobsLeft(before: State, jobs: map<Id, Job>, existing: seq<Entry>, i: nat)
  {
    && (forall id :: id in jobs <==> id in before.jobs && !Gone(existing, i, id))
    && (forall id | id in jobs :: jobs[id] == before.jobs[id])
  }

  lemma DropListed(before: State, jobs: map<Id, Job>, app: string, existing: seq<Entry>, i: nat)
    requires Inv(before) && IsListing(before, app, existing) && i < |existing| && JobsLeft(before, jobs, existing, i)
    ensures var next := match existing[i].row.jobId
              case None => jobs
              case Some(jobId) => OrElse(Unschedule(before.(jobs := jobs), jobId), before.(jobs := jobs)).jobs;
            JobsLeft(before, next, existing, i + 1)
  {
    var gone := existing[i].id;
    assert Agrees(before, gone);
    forall id ensures Gone(existing, i + 1, id) <==> Gone(existing, i, id) || id == gone {
      if Gone(existing, i, id) || id == gone {
        var x :| 0 <= x <= i && existing[x].id == id;
      }
    }
    if gone in before.jobs { assert gone in jobs && jobs[gone].jobId == existing[i].row.jobId.value; }
  }

  lemma AllDropped(before: State, jobs: map<Id, Job>, app: string, existing: seq<Entry>)
    requires Inv(before) && IsListing(before, app, existing) && JobsLeft(before, jobs, existing, |existing|)
    ensures jobs == DeleteAll(before, app).jobs
  {
    forall id ensures Gone(existing, |existing|, id) <==> id in before.table && before.table[id].app == app {
      if id in before.table && before.table[id].app == app { assert Listed(existing, id); }
    }
  }

  // ---- What a successful synchronisation means ----

  /** Exactly the manifest's names are left, each enabled, with a job, and with the values its last
      definition declares. */
  lemma SyncedExactly(before: State, s: State, app: string, defs: seq<Definition>, createdBy: Option<nat>)
    requires Progress(before, s, app, defs, createdBy, |defs|)
    ensures (set id | id in s.table && s.table[id].app == app :: s.table[id].name) == (set d | d in defs :: d.name)
    ensures forall id | id in s.table && s.table[id].app == app ::
              && s.table[id].enabled && id in s.jobs && Named(defs, |defs|, s.table[id].name)
              && Declared(before, s, app, LastNamed(defs, |defs|, s.table[id].name).value, createdBy, id)
  {
    forall id | id in s.table && s.table[id].app == app
      ensures s.table[id].enabled && id in s.jobs && Named(defs, |defs|, s.table[id].name)
      ensures Declared(before, s, app, LastNamed(defs, |defs|, s.table[id].name).value, createdBy, id)
    {
      OnlyDeclaredLeft(before, s, app, defs, createdBy, id);
    }
    var names := set id | id in s.table && s.table[id].app == app :: s.table[id].name;
    forall d | d in defs ensures d.name in names {
      var i :| 0 <= i < |defs| && defs[i] == d;
      NamedIff(defs, |defs|, d.name);
      var x :| Declared(before, s, app, LastNamed(defs, |defs|, d.name).value, createdBy, x);
    }
    forall n | n in names ensures exists d :: d in defs && d.name == n {
      assert LastNamed(defs, |defs|, n).Some?;
      NamedIff(defs, |defs|, n);
      var i :| 0 <= i < |defs| && defs[i].name == n;
      assert defs[i] in defs;
    }
  }

  lemma OnlyDeclaredLeft(before: State, s: State, app: string, defs: seq<Definition>, createdBy: Option<nat>, id: Id)
    requires Progress(before, s, app, defs, createdBy, |defs|) && id in s.table && s.table[id].app == app
    ensures s.table[id].enabled && id in s.jobs && Named(defs, |defs|, s.table[id].name)
    ensures Declared(before, s, app, LastNamed(defs, |defs|, s.table[id].name).value, createdBy, id)
  {
    assert Accounted(before, s, defs, |defs|, id);
    var d := LastNamed(defs, |defs|, s.table[id].name).value;
    assert HasDeclared(before, s, app, d, createdBy);
    var x :| Declared(before, s, app, d, createdBy, x);
    assert x == id && Agrees(s, id);
  }

  /** Did every schedule of this name that was there have this timezone?  Also when there was none. */
  ghost predicate HadZone(before: State, app: string, d: Definition)
  {
    forall id :: id in before.table && before.table[id].app == app && before.table[id].name == d.name ==> before.table[id].timezone == d.timezone
  }

  /** The timezone is the one declared value an existing schedule does not take over. */
  ghost predicate TimezonesFollowIff(before: State, s: State, app: string, defs: seq<Definition>)
  {
    forall i, id | 0 <= i < |defs| && id in s.table && s.table[id].app == app && s.table[id].name == defs[i].name ::
      s.table[id].timezone == defs[i].timezone <==> HadZone(before, app, defs[i])
  }

  lemma TimezonesFollow(k: Rules, before: State, s: State, app: string, defs: seq<Definition>, createdBy: Option<nat>)
    requires Inv(before) && Progress(before, s, app, defs, createdBy, |defs|)
    requires forall i | 0 <= i < |defs| :: Accepted(k, before, app, defs, i)
    ensures TimezonesFollowIff(before, s, app, defs)
  {
    forall i, id | 0 <= i < |defs| && id in s.table && s.table[id].app == app && s.table[id].name == defs[i].name
      ensures s.table[id].timezone == defs[i].timezone <==> HadZone(before, app, defs[i])
    {
      OnlyDeclaredLeft(before, s, app, defs, createdBy, id);
      if NameTaken(before, app, defs[i].name) {
        var x :| x in before.table && before.table[x].app == app && before.table[x].name == defs[i].name;
        assert Lasting(before, app, defs, x) && Continued(before, s, x);
        assert x == id;
      } else {
        NewNameIsNamedOnce(k, before, app, defs, i);
      }
    }
  }

  lemma NewNameIsNamedOnce(k: Rules, before: State, app: string, defs: seq<Definition>, i: nat)
    requires i < |defs| && !NameTaken(before, app, defs[i].name)
    requires forall j | 0 <= j < |defs| :: Accepted(k, before, app, defs, j)
    ensures LastNamed(defs, |defs|, defs[i].name) == Some(defs[i])
  {
    var j := |defs|;
    while j > i + 1
      invariant i < j <= |defs| && LastNamed(defs, |defs|, defs[i].name) == LastNamed(defs, j, defs[i].name)
    {
      j := j - 1;
      if defs[j].name == defs[i].name {
        assert Accepted(k, before, app, defs, j);
        NamedIff(defs, j, defs[j].name);
      }
    }
  }

  /** A schedule stays in its timezone when its manifest moves it to another: the sync takes place and
      succeeds, everything else the definition declares arrives, and the timezone does not. */
  method ZoneStaysBehind(k: Rules, store: Store, app: string, existing: seq<Entry>, id: Id, d: Definition, createdBy: Option<nat>)
    returns (ok: bool)
    requires Inv(store.View()) && IsListing(store.View(), app, existing) && Applicable(k, store.View(), app, d)
    requires id in store.table && store.table[id].app == app && store.table[id].name == d.name && store.table[id].timezone != d.timezone
    modifies store
    ensures ok && Progress(old(store.View()), store.View(), app, [d], createdBy, 1)
    ensures id in store.table && store.table[id].app == app && store.table[id].schedule == d.schedule && Carries(d, store.table[id].payload)
    ensures store.table[id].timezone == old(store.table)[id].timezone != d.timezone
  {
    ghost var before := store.View();
    ghost var done;
    NamedIff([d], 1, d.name);
    assert NameTaken(before, app, d.name);
    assert Accepted(k, before, app, [d], 0);
    ok, done := store.SyncFromManifest(k, app, existing, [d], createdBy);
    assert Lasting(before, app, [d], id) && Continued(before, store.View(), id);
    OnlyDeclaredLeft(before, store.View(), app, [d], createdBy, id);
  }

  /** For example a report at nine in Paris that the manifest moves to eight in UTC is made at eight in
      Paris. */
  method ParisMovesToUtc(k: Rules, app: string) returns (store: Store, created: bool, synced: bool)
    requires k.validSchedule("0 9 * * *") && k.accepts("0 9 * * *") && k.validSchedule("0 8 * * *") && k.accepts("0 8 * * *")
    ensures fresh(store) && created && synced && 0 in store.table && store.table[0].app == app
    ensures store.table[0].schedule == "0 8 * * *" && store.table[0].timezone == Some("Europe/Paris")
  {
    store := new Store();
    var paris := NewCron("report", "0 9 * * *", Some("Europe/Paris"), Object(map[]), "skip", None);
    created := store.CreateCron(k, app, paris);
    ghost var before := store.View();
    forall id | id in before.table ensures id == 0 { assert id != 0 ==> SameAt(EMPTY, before, id); }
    var existing := [Entry(0, store.table[0])];
    assert IsListing(before, app, existing) by { assert existing[0].id == 0; }
    var utc := Definition("report", "0 8 * * *", Some("UTC"), None, None, "skip");
    assert |"UTC"| != |"Europe/Paris"|;
    synced := ZoneStaysBehind(k, store, app, existing, 0, utc, None);
  }
}
