/** Cron schedules: a table of schedules and pg_cron's own list of jobs, changed together in one
    transaction per operation.  Schedule ids and job ids come from counters. */
module Crons {
  import opened Common

  type Id = nat

  datatype Payload = Object(entries: map<string, string>) | OtherJson(text: string)

  datatype Row = Row(
    app: string,
    name: string,
    schedule: string,
    timezone: Option<string>,
    payload: Payload,
    overlap: string,
    enabled: bool,
    jobId: Option<nat>,
    createdBy: Option<nat>)

  /** The call a job makes when it fires. */
  datatype Command = Command(cron: Id, app: string, payload: Payload, skip: bool)

  datatype Job = Job(jobId: nat, schedule: string, command: Command)

  /** Jobs are kept under their names, and a job is named after its schedule's id. */
  datatype State = State(table: map<Id, Row>, jobs: map<Id, Job>, nextId: Id, nextJob: nat)

  /** What pg_cron accepts as a schedule is its own business. */
  datatype Rules = Rules(accepts: string -> bool, validSchedule: string -> bool)

  predicate NameChar(c: char)
  {
    'a' <= c <= 'z' || 'A' <= c <= 'Z' || '0' <= c <= '9' || c == '_' || c == '-'
  }

  predicate ValidName(name: string)
  {
    0 < |name| <= 64 && forall i | 0 <= i < |name| :: NameChar(name[i])
  }

  predicate ValidOverlap(overlap: string)
  {
    overlap == "skip" || overlap == "queue"
  }

  // ---- pg_cron ----

  /** `cron.schedule`: a job of that name is changed in place, else a new one is made. */
  function Schedule(s: State, id: Id, schedule: string, command: Command): State
  {
    if id in s.jobs then s.(jobs := s.jobs[id := Job(s.jobs[id].jobId, schedule, command)])
    else s.(jobs := s.jobs[id := Job(s.nextJob, schedule, command)], nextJob := s.nextJob + 1)
  }

  /** `cron.unschedule`: fails when no job has that number. */
  function Unschedule(s: State, jobId: nat): Option<State>
  {
    if exists id :: id in s.jobs && s.jobs[id].jobId == jobId
    then Some(s.(jobs := map id | id in s.jobs && s.jobs[id].jobId != jobId :: s.jobs[id]))
    else None
  }

  function CommandFor(id: Id, row: Row): Command
  {
    Command(id, row.app, row.payload, row.overlap == "skip")
  }

  // ---- The operations; `None` is an error, and the transaction leaves nothing behind ----

  datatype NewCron = NewCron(name: string, schedule: string, timezone: Option<string>, payload: Payload, overlap: string, createdBy: Option<nat>)

  predicate NameTaken(s: State, app: string, name: string)
  {
    exists id :: id in s.table && s.table[id].app == app && s.table[id].name == name
  }

  function Create(k: Rules, s: State, app: string, c: NewCron): Option<State>
  {
    if !ValidName(c.name) || !k.validSchedule(c.schedule) || !ValidOverlap(c.overlap) then None
    else if NameTaken(s, app, c.name) || !k.accepts(c.schedule) then None
    else
      var row := Row(app, c.name, c.schedule, c.timezone, c.payload, c.overlap, true, None, c.createdBy);
      var t := Schedule(s.(nextId := s.nextId + 1), s.nextId, c.schedule, CommandFor(s.nextId, row));
      Some(t.(table := t.table[s.nextId := row.(jobId := Some(t.jobs[s.nextId].jobId))]))
  }

  function OrElse<T>(o: Option<T>, otherwise: T): T
  {
    if o.Some? then o.value else otherwise
  }

  datatype Edit = Edit(schedule: Option<string>, payload: Option<Payload>, overlap: Option<string>, enabled: Option<bool>)

  function Edited(row: Row, e: Edit): Row
  {
    row.(schedule := OrElse(e.schedule, row.schedule), payload := OrElse(e.payload, row.payload),
         overlap := OrElse(e.overlap, row.overlap), enabled := OrElse(e.enabled, row.enabled))
  }

  function DropJob(s: State, row: Row): Option<State>
  {
    if row.jobId.Some? then Unschedule(s, row.jobId.value) else Some(s)
  }

  function Update(k: Rules, s: State, app: string, id: Id, e: Edit): Option<State>
  {
    if (e.schedule.Some? && !k.validSchedule(e.schedule.value)) || (e.overlap.Some? && !ValidOverlap(e.overlap.value)) then None
    else if id !in s.table || s.table[id].app != app then None
    else
      var row := Edited(s.table[id], e);
      var t := DropJob(s, s.table[id]);
      if t.None? then None
      else if !row.enabled then Some(t.value.(table := t.value.table[id := row.(jobId := None)]))
      else if !k.accepts(row.schedule) then None
      else
        var u := Schedule(t.value, id, row.schedule, CommandFor(id, row));
        Some(u.(table := u.table[id := row.(jobId := Some(u.jobs[id].jobId))]))
  }

  function Delete(s: State, app: string, id: Id): Option<State>
  {
    if id !in s.table || s.table[id].app != app then None
    else
      var t := DropJob(s, s.table[id]);
      if t.None? then None else Some(t.value.(table := t.value.table - {id}))
  }

  /** Uninstalling an app takes its schedules and their jobs. */
  function DeleteAll(s: State, app: string): State
  {
    s.(table := map id | id in s.table && s.table[id].app != app :: s.table[id],
       jobs := map id | id in s.jobs && !(id in s.table && s.table[id].app == app) :: s.jobs[id])
  }

  // ---- The two sides agree ----

  /** The job fires on the schedule's times and makes the schedule's call. */
  predicate Fires(job: Job, id: Id, row: Row)
  {
    && job.schedule == row.schedule && job.command.cron == id && job.command.app == row.app && job.command.payload == row.payload
    && (job.command.skip <==> row.overlap == "skip")
  }

  /** A schedule and the job of its name: an enabled schedule has exactly its job, carrying its
      current values; a disabled or missing one has none. */
  ghost predicate Agrees(s: State, id: Id)
  {
    if id in s.table && s.table[id].enabled then
      id in s.jobs && s.table[id].jobId == Some(s.jobs[id].jobId) && Fires(s.jobs[id], id, s.table[id])
    else id !in s.jobs && (id in s.table ==> s.table[id].jobId.None?)
  }

  ghost predicate Unused(s: State)
  {
    && (forall id :: id in s.table ==> id < s.nextId)
    && (forall id :: id in s.jobs ==> s.jobs[id].jobId < s.nextJob)
    && (forall i, j :: i in s.jobs && j in s.jobs && i != j ==> s.jobs[i].jobId != s.jobs[j].jobId)
  }

  ghost predicate UniqueNames(s: State)
  {
    forall i, j :: i in s.table && j in s.table && i != j ==> s.table[i].app != s.table[j].app || s.table[i].name != s.table[j].name
  }

  ghost predicate Inv(s: State)
  {
    && (forall id :: Agrees(s, id))
    && Unused(s) && UniqueNames(s)
  }

  const EMPTY := State(map[], map[], 0, 0)

  // ---- What one operation does to the two maps ----

  lemma DropJobFrees(s: State, id: Id)
    requires Inv(s) && id in s.table
    ensures DropJob(s, s.table[id]) == Some(s.(jobs := s.jobs - {id}))
  {
    assert Agrees(s, id);
    var row := s.table[id];
    if row.jobId.Some? {
      var t := Unschedule(s, row.jobId.value);
      assert id in s.jobs && s.jobs[id].jobId == row.jobId.value;
      assert t.value.jobs == s.jobs - {id};
    } else {
      assert s.jobs - {id} == s.jobs;
    }
  }

  ghost predicate SameAt(s: State, s': State, j: Id)
  {
    && (j in s'.table <==> j in s.table) && (j in s.table ==> s'.table[j] == s.table[j])
    && (j in s'.jobs <==> j in s.jobs) && (j in s.jobs ==> s'.jobs[j] == s.jobs[j])
  }

  /** Both maps change at one id only. */
  ghost predicate OnlyAt(s: State, s': State, id: Id)
  {
    forall j :: j != id ==> SameAt(s, s', j)
  }

  lemma OneChangeKeeps(s: State, s': State, id: Id)
    requires Inv(s) && OnlyAt(s, s', id) && Agrees(s', id) && Unused(s')
    requires id in s'.table ==> forall j :: j in s.table && j != id ==> s.table[j].app != s'.table[id].app || s.table[j].name != s'.table[id].name
    ensures Inv(s')
  {
    forall j ensures Agrees(s', j) { assert Agrees(s, j) && (j != id ==> SameAt(s, s', j)); }
    forall i, j | i in s'.table && j in s'.table && i != j
      ensures s'.table[i].app != s'.table[j].app || s'.table[i].name != s'.table[j].name
    {
      assert (i != id ==> SameAt(s, s', i)) && (j != id ==> SameAt(s, s', j));
    }
  }

  // ---- When an operation goes through, and what it leaves ----

  ghost predicate MayCreate(k: Rules, s: State, app: string, c: NewCron)
  {
    && 0 < |c.name| <= 64
    && (forall i | 0 <= i < |c.name| ::
          var x := c.name[i]; 'a' <= x <= 'z' || 'A' <= x <= 'Z' || '0' <= x <= '9' || x == '_' || x == '-')
    && c.overlap in ["skip", "queue"] && k.validSchedule(c.schedule) && k.accepts(c.schedule)
    && (forall id | id in s.table :: s.table[id].app != app || s.table[id].name != c.name)
  }

  lemma CreateSucceedsIff(k: Rules, s: State, app: string, c: NewCron)
    ensures Create(k, s, app, c).Some? <==> MayCreate(k, s, app, c)
  {
    assert ValidName(c.name) <==>
           0 < |c.name| <= 64 && forall i | 0 <= i < |c.name| ::
             var x := c.name[i]; 'a' <= x <= 'z' || 'A' <= x <= 'Z' || '0' <= x <= '9' || x == '_' || x == '-' by {
      assert forall i | 0 <= i < |c.name| ::
               NameChar(c.name[i]) <==> var x := c.name[i]; 'a' <= x <= 'z' || 'A' <= x <= 'Z' || '0' <= x <= '9' || x == '_' || x == '-';
    }
  }

  /** What an edit leaves out stays as it was. */
  predicate EditFits(was: Row, now: Row, e: Edit)
  {
    && now.app == was.app && now.name == was.name && now.timezone == was.timezone && now.createdBy == was.createdBy
    && (match e.schedule case None => now.schedule == was.schedule case Some(x) => now.schedule == x)
    && (match e.payload case None => now.payload == was.payload case Some(x) => now.payload == x)
    && (match e.overlap case None => now.overlap == was.overlap case Some(x) => now.overlap == x)
    && (match e.enabled case None => now.enabled == was.enabled case Some(x) => now.enabled == x)
  }

  /** The values must be valid, and pg_cron accepts the times of a schedule that is on afterwards. */
  ghost predicate MayUpdate(k: Rules, s: State, app: string, id: Id, e: Edit)
  {
    && id in s.table && s.table[id].app == app
    && (e.schedule.Some? ==> k.validSchedule(e.schedule.value)) && (e.overlap.Some? ==> e.overlap.value in ["skip", "queue"])
    && forall now | EditFits(s.table[id], now, e) && now.enabled :: k.accepts(now.schedule)
  }

  lemma CreateKeeps(k: Rules, s: State, app: string, c: NewCron)
    requires Inv(s) && Create(k, s, app, c).Some?
    ensures Inv(Create(k, s, app, c).value) && OnlyAt(s, Create(k, s, app, c).value, s.nextId)
    ensures var r := Create(k, s, app, c).value;
            && s.nextId !in s.table && s.nextId in r.table
            && r.table[s.nextId] == Row(app, c.name, c.schedule, c.timezone, c.payload, c.overlap, true, Some(s.nextJob), c.createdBy)
  {
    var s' := Create(k, s, app, c).value;
    assert Agrees(s, s.nextId);
    assert s'.table == s.table[s.nextId := s'.table[s.nextId]];
    assert s'.jobs == s.jobs[s.nextId := s'.jobs[s.nextId]];
    OneChangeKeeps(s, s', s.nextId);
  }

  lemma UpdateIs(k: Rules, s: State, app: string, id: Id, e: Edit, s': State)
    requires Inv(s) && Update(k, s, app, id, e) == Some(s')
    ensures id in s.table
    ensures var row := Edited(s.table[id], e);
            s' == if row.enabled then
                    State(s.table[id := row.(jobId := Some(s.nextJob))], s.jobs[id := Job(s.nextJob, row.schedule, CommandFor(id, row))], s.nextId, s.nextJob + 1)
                  else State(s.table[id := row.(jobId := None)], s.jobs - {id}, s.nextId, s.nextJob)
  {
    DropJobFrees(s, id);
    var row := Edited(s.table[id], e);
    var job := Job(s.nextJob, row.schedule, CommandFor(id, row));
    assert (s.jobs - {id})[id := job] == s.jobs[id := job];
  }

  /** An update changes both maps at one schedule only. */
  lemma UpdateIsLocal(k: Rules, s: State, app: string, id: Id, e: Edit, s': State)
    requires Inv(s) && Update(k, s, app, id, e) == Some(s')
    ensures id in s.table && OnlyAt(s, s', id) && s'.nextId == s.nextId && Agrees(s', id) && Unused(s')
    ensures id in s'.table && EditFits(s.table[id], s'.table[id], e)
  {
    UpdateIs(k, s, app, id, e, s');
    assert Agrees(s, id);
  }

  lemma UpdateKeeps(k: Rules, s: State, app: string, id: Id, e: Edit)
    requires Inv(s) && Update(k, s, app, id, e).Some?
    ensures Inv(Update(k, s, app, id, e).value) && OnlyAt(s, Update(k, s, app, id, e).value, id)
    ensures var r := Update(k, s, app, id, e).value;
            id in s.table && id in r.table && EditFits(s.table[id], r.table[id], e)
  {
    var s' := Update(k, s, app, id, e).value;
    UpdateIsLocal(k, s, app, id, e, s');
    OneChangeKeeps(s, s', id);
  }

  lemma DeleteKeeps(s: State, app: string, id: Id)
    requires Inv(s) && Delete(s, app, id).Some?
    ensures Inv(Delete(s, app, id).value) && OnlyAt(s, Delete(s, app, id).value, id)
    ensures id !in Delete(s, app, id).value.table
  {
    DropJobFrees(s, id);
    OneChangeKeeps(s, Delete(s, app, id).value, id);
  }

  lemma DeleteAllKeeps(s: State, app: string)
    requires Inv(s)
    ensures Inv(DeleteAll(s, app))
    ensures var r := DeleteAll(s, app);
            && (forall id :: id in r.table <==> id in s.table && s.table[id].app != app)
            && (forall id | id in r.table :: SameAt(s, r, id)) && (forall id | id in r.jobs :: id in r.table)
  {
    var r := DeleteAll(s, app);
    forall id ensures Agrees(r, id) { assert Agrees(s, id); }
    forall id | id in r.jobs ensures id in r.table { assert Agrees(r, id); }
  }

  /** In a state where the two sides agree, deleting or updating an existing schedule never fails
      on the side of pg_cron. */
  lemma DeleteSucceedsIff(s: State, app: string, id: Id)
    requires Inv(s)
    ensures Delete(s, app, id).Some? <==> id in s.table && s.table[id].app == app
  {
    if id in s.table { DropJobFrees(s, id); }
  }

  lemma UpdateSucceedsIff(k: Rules, s: State, app: string, id: Id, e: Edit)
    requires Inv(s)
    ensures Update(k, s, app, id, e).Some? <==> MayUpdate(k, s, app, id, e)
  {
    if id in s.table {
      DropJobFrees(s, id);
      assert EditFits(s.table[id], Edited(s.table[id], e), e);
    }
  }

  // ---- Every reachable state ----

  datatype Op =
    | DoCreate(app: string, c: NewCron)
    | DoUpdate(app: string, id: Id, e: Edit)
    | DoDelete(app: string, id: Id)
    | DoDeleteAll(app: string)

  function Apply(k: Rules, s: State, op: Op): State
  {
    var r := match op
      case DoCreate(app, c) => Create(k, s, app, c)
      case DoUpdate(app, id, e) => Update(k, s, app, id, e)
      case DoDelete(app, id) => Delete(s, app, id)
      case DoDeleteAll(app) => Some(DeleteAll(s, app));
    if r.Some? then r.value else s
  }

  function ApplyOps(k: Rules, s: State, ops: seq<Op>): State
  {
    if ops == [] then s else Apply(k, ApplyOps(k, s, ops[..|ops| - 1]), ops[|ops| - 1])
  }

  lemma ApplyKeeps(k: Rules, s: State, op: Op)
    requires Inv(s)
    ensures Inv(Apply(k, s, op))
  {
    match op
    case DoCreate(app, c) => if Create(k, s, app, c).Some? { CreateKeeps(k, s, app, c); }
    case DoUpdate(app, id, e) => if Update(k, s, app, id, e).Some? { UpdateKeeps(k, s, app, id, e); }
    case DoDelete(app, id) => if Delete(s, app, id).Some? { DeleteKeeps(s, app, id); }
    case DoDeleteAll(app) => DeleteAllKeeps(s, app);
  }

  lemma {:induction false} ReachableAgrees(k: Rules, ops: seq<Op>)
    ensures Inv(ApplyOps(k, EMPTY, ops))
    decreases |ops|
  {
    if ops != [] {
      ReachableAgrees(k, ops[..|ops| - 1]);
      ApplyKeeps(k, ApplyOps(k, EMPTY, ops[..|ops| - 1]), ops[|ops| - 1]);
    }
  }

  /** After any operations in any order, live jobs are one-to-one with enabled schedules and carry
      their current schedule, payload and overlap flag. */
  lemma JobsMatchSchedules(k: Rules, ops: seq<Op>, s: State)
    requires s == ApplyOps(k, EMPTY, ops)
    ensures Inv(s) && s.jobs.Keys == set id | id in s.table && s.table[id].enabled
    ensures forall id | id in s.jobs ::
              && s.jobs[id].schedule == s.table[id].schedule && s.jobs[id].command.cron == id
              && s.jobs[id].command.app == s.table[id].app && s.jobs[id].command.payload == s.table[id].payload
              && (s.jobs[id].command.skip <==> s.table[id].overlap == "skip")
    ensures forall i, j | i in s.jobs && j in s.jobs && i != j :: s.jobs[i].jobId != s.jobs[j].jobId
  {
    ReachableAgrees(k, ops);
    forall id ensures id in s.jobs <==> id in s.table && s.table[id].enabled { assert Agrees(s, id); }
    forall id | id in s.jobs ensures Fires(s.jobs[id], id, s.table[id]) { assert Agrees(s, id); }
  }
}
