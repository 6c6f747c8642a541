/** Sliding windows: the per-class rate limit of a worker's data calls, and the crash window that
    decides whether a crashed worker is started again. */
module Windows {
  import opened Common

  /** `retain`: keep the moments less than `span` ago. */
  function Recent(times: seq<real>, now: real, span: real): seq<real>
  {
    if times == [] then []
    else (if now - times[0] < span then [times[0]] else []) + Recent(times[1..], now, span)
  }

  ghost predicate Monotone(times: seq<real>)
  {
    forall i, j | 0 <= i <= j < |times| :: times[i] <= times[j]
  }

  /** Any `max + 1` admissions in a row take at least `span`. */
  ghost predicate Spaced(admitted: seq<real>, max: nat, span: real)
  {
    forall i | 0 <= i < |admitted| - max :: admitted[i + max] - admitted[i] >= span
  }

  /** What a window keeps in memory is the end of the whole history, from the first moment that is
      less than `span` before the last call. */
  ghost predicate Remembers(times: seq<real>, admitted: seq<real>, last: real, span: real)
  {
    && Monotone(admitted) && (forall i | 0 <= i < |admitted| :: admitted[i] <= last)
    && |times| <= |admitted| && times == admitted[|admitted| - |times|..]
    && forall i | 0 <= i < |admitted| - |times| :: last - admitted[i] >= span
  }

  /** How many moments at the beginning are too old. */
  ghost function TooOld(times: seq<real>, now: real, span: real): nat
  {
    if times == [] || now - times[0] < span then 0 else TooOld(times[1..], now, span) + 1
  }

  lemma {:induction false} TooOldIs(times: seq<real>, now: real, span: real)
    ensures TooOld(times, now, span) <= |times|
    ensures forall i | 0 <= i < TooOld(times, now, span) :: now - times[i] >= span
    ensures TooOld(times, now, span) < |times| ==> now - times[TooOld(times, now, span)] < span
    decreases |times|
  {
    if times != [] && now - times[0] >= span {
      TooOldIs(times[1..], now, span);
      assert forall i | 0 < i < |times| :: times[i] == times[1..][i - 1];
    }
  }

  lemma {:induction false} RecentAfterOld(times: seq<real>, now: real, span: real)
    requires Monotone(times)
    ensures TooOld(times, now, span) <= |times| && Recent(times, now, span) == times[TooOld(times, now, span)..]
    decreases |times|
  {
    TooOldIs(times, now, span);
    if times != [] {
      if now - times[0] < span {
        forall i | 0 <= i < |times| ensures now - times[i] < span { assert times[0] <= times[i]; }
        AllRecent(times, now, span);
      } else {
        RecentAfterOld(times[1..], now, span);
      }
    }
  }

  /** In a growing history only a beginning is ever forgotten. */
  lemma RecentIsSuffix(times: seq<real>, now: real, span: real)
    requires Monotone(times)
    ensures |Recent(times, now, span)| <= |times|
    ensures Recent(times, now, span) == times[|times| - |Recent(times, now, span)|..]
    ensures forall i | 0 <= i < |times| - |Recent(times, now, span)| :: now - times[i] >= span
    ensures forall i | |times| - |Recent(times, now, span)| <= i < |times| :: now - times[i] < span
  {
    var k := TooOld(times, now, span);
    TooOldIs(times, now, span);
    RecentAfterOld(times, now, span);
    assert |times| - |Recent(times, now, span)| == k;
    forall i | k <= i < |times| ensures now - times[i] < span { assert times[k] <= times[i]; }
  }

  lemma {:induction false} AllRecent(times: seq<real>, now: real, span: real)
    requires forall i | 0 <= i < |times| :: now - times[i] < span
    ensures Recent(times, now, span) == times
    decreases |times|
  {
    if times != [] {
      AllRecent(times[1..], now, span);
      assert times == [times[0]] + times[1..];
    }
  }

  lemma TrimmedRemembers(times: seq<real>, admitted: seq<real>, last: real, now: real, span: real)
    requires Remembers(times, admitted, last, span) && last <= now
    ensures Remembers(Recent(times, now, span), admitted, now, span)
    ensures forall i | |admitted| - |Recent(times, now, span)| <= i < |admitted| :: now - admitted[i] < span
  {
    RecentIsSuffix(times, now, span);
    var kept := Recent(times, now, span);
    var gone := |admitted| - |times|;
    assert forall i | gone <= i < |admitted| :: admitted[i] == times[i - gone];
    assert kept == admitted[|admitted| - |kept|..];
  }

  /** Admitting while fewer than `max` are remembered keeps the spacing. */
  lemma AdmitKeepsSpacing(times: seq<real>, admitted: seq<real>, now: real, max: nat, span: real)
    requires Remembers(times, admitted, now, span) && Spaced(admitted, max, span) && |times| < max
    ensures Remembers(times + [now], admitted + [now], now, span) && Spaced(admitted + [now], max, span)
  {
    var longer := admitted + [now];
    forall i | 0 <= i < |longer| - max ensures longer[i + max] - longer[i] >= span {
      if i + max < |admitted| { assert admitted[i + max] - admitted[i] >= span; }
    }
  }

  // ---- Counting within a window ----

  /** The admissions in the window of length `span` that begins at `w`. */
  ghost function InWindow(admitted: seq<real>, w: real, span: real): set<nat>
  {
    set i: nat | i < |admitted| && w <= admitted[i] < w + span
  }

  /** The numbers from `lo` up to, not including, `hi`. */
  ghost function Range(lo: nat, hi: nat): set<nat>
  {
    if hi <= lo then {} else Range(lo, hi - 1) + {hi - 1}
  }

  lemma {:induction false} RangeIs(lo: nat, hi: nat)
    requires lo <= hi
    ensures |Range(lo, hi)| == hi - lo && forall i: nat :: i in Range(lo, hi) <==> lo <= i < hi
    decreases hi
  {
    if lo < hi { RangeIs(lo, hi - 1); }
  }

  /** Spacing is the window bound: no window of that length holds more than `max`. */
  lemma SpacedMeansBounded(admitted: seq<real>, max: nat, span: real, w: real)
    requires Monotone(admitted) && Spaced(admitted, max, span)
    ensures |InWindow(admitted, w, span)| <= max
  {
    var inside := InWindow(admitted, w, span);
    if inside != {} {
      var first := FirstInside(admitted, w, span);
      RangeIs(first, first + max);
      forall i | first + max <= i < |admitted| ensures admitted[i] >= w + span {
        assert admitted[first + max] - admitted[first] >= span;
      }
      assert inside <= Range(first, first + max);
      SubsetSize(inside, Range(first, first + max));
    }
  }

  lemma FirstInside(admitted: seq<real>, w: real, span: real) returns (first: nat)
    requires InWindow(admitted, w, span) != {}
    ensures first in InWindow(admitted, w, span) && forall i | i in InWindow(admitted, w, span) :: first <= i
  {
    first := 0;
    while first !in InWindow(admitted, w, span)
      invariant first <= |admitted| && forall i | i in InWindow(admitted, w, span) :: first <= i
      decreases |admitted| - first
    {
      first := first + 1;
    }
  }

  // ---- The rate limit ----

  datatype Class = Sql | Collection | SelfAction

  const RATE_PER_SECOND := 100
  const SECOND := 1.0

  /** The admissions less than `span` before `now`. */
  ghost function RecentOf(admitted: seq<real>, now: real, span: real): set<nat>
  {
    set i: nat | i < |admitted| && now - admitted[i] < span
  }

  lemma RecentCount(times: seq<real>, admitted: seq<real>, now: real, span: real)
    requires Remembers(times, admitted, now, span)
    requires forall i | |admitted| - |times| <= i < |admitted| :: now - admitted[i] < span
    ensures |RecentOf(admitted, now, span)| == |times|
  {
    var lo := |admitted| - |times|;
    RangeIs(lo, |admitted|);
    assert RecentOf(admitted, now, span) == Range(lo, |admitted|);
  }

  /** The whole history of one class: every admission, and the last call. */
  datatype History = History(admitted: seq<real>, last: real)

  ghost predicate Stands(times: seq<real>, h: History, max: nat, span: real)
  {
    Remembers(times, h.admitted, h.last, span) && Spaced(h.admitted, max, span)
  }

  /** What a call at `now` does to a history. */
  ghost function Called(h: History, now: real, ok: bool): History
  {
    History(if ok then h.admitted + [now] else h.admitted, now)
  }

  /** Trims what is older than a second, then admits if fewer than `max` are left: it refuses
      exactly when the last second already holds `max`. */
  method RateAdmit(times: seq<real>, max: nat, now: real, ghost h: History) returns (times': seq<real>, ok: bool)
    requires Stands(times, h, max, SECOND) && h.last <= now
    ensures ok <==> |RecentOf(h.admitted, now, SECOND)| < max
    ensures Stands(times', Called(h, now, ok), max, SECOND)
  {
    TrimmedRemembers(times, h.admitted, h.last, now, SECOND);
    times' := Recent(times, now, SECOND);
    RecentCount(times', h.admitted, now, SECOND);
    if |times'| >= max { return times', false; }
    AdmitKeepsSpacing(times', h.admitted, now, max, SECOND);
    return times' + [now], true;
  }

  /** A budget per class, and the history each stands for. */
  class RateBuckets {
    var sql: seq<real>
    var collection: seq<real>
    var selfAction: seq<real>
    ghost var sqlLog: History
    ghost var collectionLog: History
    ghost var selfActionLog: History

    ghost predicate SqlOk()
      reads `sql, `sqlLog
    {
      Stands(sql, sqlLog, RATE_PER_SECOND, SECOND)
    }

    ghost predicate CollectionOk()
      reads `collection, `collectionLog
    {
      Stands(collection, collectionLog, RATE_PER_SECOND, SECOND)
    }

    ghost predicate SelfActionOk()
      reads `selfAction, `selfActionLog
    {
      Stands(selfAction, selfActionLog, RATE_PER_SECOND, SECOND)
    }

    ghost function Log(c: Class): History
      reads this
    {
      match c case Sql => sqlLog case Collection => collectionLog case SelfAction => selfActionLog
    }

    constructor ()
      ensures SqlOk() && CollectionOk() && SelfActionOk()
      ensures forall c :: Log(c) == History([], 0.0)
    {
      sql, collection, selfAction := [], [], [];
      sqlLog, collectionLog, selfActionLog := History([], 0.0), History([], 0.0), History([], 0.0);
      new;
      EmptyStands();
    }

    method AdmitSql(now: real) returns (ok: bool)
      requires SqlOk() && sqlLog.last <= now
      modifies `sql, `sqlLog
      ensures SqlOk() && sqlLog == Called(old(sqlLog), now, ok)
      ensures ok <==> |RecentOf(old(sqlLog).admitted, now, 1.0)| < 100
    {
      sql, ok := RateAdmit(sql, RATE_PER_SECOND, now, sqlLog);
      sqlLog := Called(sqlLog, now, ok);
    }

    method AdmitCollection(now: real) returns (ok: bool)
      requires CollectionOk() && collectionLog.last <= now
      modifies `collection, `collectionLog
      ensures CollectionOk() && collectionLog == Called(old(collectionLog), now, ok)
      ensures ok <==> |RecentOf(old(collectionLog).admitted, now, 1.0)| < 100
    {
      collection, ok := RateAdmit(collection, RATE_PER_SECOND, now, collectionLog);
      collectionLog := Called(collectionLog, now, ok);
    }

    method AdmitSelfAction(now: real) returns (ok: bool)
      requires SelfActionOk() && selfActionLog.last <= now
      modifies `selfAction, `selfActionLog
      ensures SelfActionOk() && selfActionLog == Called(old(selfActionLog), now, ok)
      ensures ok <==> |RecentOf(old(selfActionLog).admitted, now, 1.0)| < 100
    {
      selfAction, ok := RateAdmit(selfAction, RATE_PER_SECOND, now, selfActionLog);
      selfActionLog := Called(selfActionLog, now, ok);
    }

    /** Draws on one budget and leaves the others as they were. */
    method Admit(c: Class, now: real) returns (ok: bool)
      requires SqlOk() && CollectionOk() && SelfActionOk() && Log(c).last <= now
      modifies this
      ensures SqlOk() && CollectionOk() && SelfActionOk()
      ensures ok <==> |set i: nat | i < |old(Log(c)).admitted| && now - old(Log(c)).admitted[i] < 1.0| < 100
      ensures Log(c).last == now && Log(c).admitted == old(Log(c)).admitted + if ok then [now] else []
      ensures forall d :: d != c ==> Log(d) == old(Log(d))
    {
      ghost var before := Log(c).admitted;
      match c {
        case Sql => ok := AdmitSql(now);
        case Collection => ok := AdmitCollection(now);
        case SelfAction => ok := AdmitSelfAction(now);
      }
      assert RecentOf(before, now, 1.0) == set i: nat | i < |before| && now - before[i] < 1.0;
    }
  }

  lemma EmptyStands()
    ensures Stands([], History([], 0.0), RATE_PER_SECOND, SECOND)
  {
  }

  /** Whatever the calls, no window of a second ever holds more than a hundred admissions of one
      class. */
  lemma RateIsBounded(times: seq<real>, h: History, w: real)
    requires Stands(times, h, RATE_PER_SECOND, SECOND)
    ensures |InWindow(h.admitted, w, SECOND)| <= RATE_PER_SECOND
  {
    SpacedMeansBounded(h.admitted, RATE_PER_SECOND, SECOND, w);
  }

  /** Those of the first `k` calls that were admitted. */
  ghost function Chosen(calls: seq<real>, ok: seq<bool>, k: nat): seq<real>
    requires k <= |calls| && k <= |ok|
  {
    if k == 0 then [] else Chosen(calls, ok, k - 1) + if ok[k - 1] then [calls[k - 1]] else []
  }

  lemma {:induction false} ChosenIsPast(calls: seq<real>, ok: seq<bool>, more: bool, k: nat)
    requires k <= |calls| && k <= |ok|
    ensures Chosen(calls, ok + [more], k) == Chosen(calls, ok, k)
  {
    if k > 0 { ChosenIsPast(calls, ok, more, k - 1); }
  }

  /** Call number `k` was admitted exactly when the second before it held fewer than a hundred. */
  ghost predicate DecidedRight(calls: seq<real>, ok: seq<bool>, k: nat)
    requires k < |ok| <= |calls|
  {
    ok[k] <==> |RecentOf(Chosen(calls, ok, k), calls[k], SECOND)| < RATE_PER_SECOND
  }

  lemma DecisionsStay(calls: seq<real>, ok: seq<bool>, more: bool)
    requires |ok| < |calls| && forall j | 0 <= j < |ok| :: DecidedRight(calls, ok, j)
    ensures forall j | 0 <= j < |ok| :: DecidedRight(calls, ok + [more], j)
  {
    forall j | 0 <= j < |ok| ensures DecidedRight(calls, ok + [more], j) {
      assert DecidedRight(calls, ok, j);
      ChosenIsPast(calls, ok, more, j);
    }
  }

  /** The admitted calls among the first `k`, by their numbers. */
  ghost function AdmittedWhere(calls: seq<real>, ok: seq<bool>, k: nat, p: real -> bool): set<nat>
    requires k <= |calls| && k <= |ok|
  {
    set i: nat | i < k && ok[i] && p(calls[i])
  }

  ghost function HeldWhere(times: seq<real>, p: real -> bool): set<nat>
  {
    set i: nat | i < |times| && p(times[i])
  }

  lemma HeldWhereSnoc(times: seq<real>, x: real, p: real -> bool)
    ensures |HeldWhere(times + [x], p)| == |HeldWhere(times, p)| + if p(x) then 1 else 0
  {
    assert HeldWhere(times + [x], p) == HeldWhere(times, p) + if p(x) then {|times|} else {};
  }

  lemma AdmittedWhereSnoc(calls: seq<real>, ok: seq<bool>, k: nat, p: real -> bool)
    requires k < |calls| && k < |ok|
    ensures |AdmittedWhere(calls, ok, k + 1, p)| == |AdmittedWhere(calls, ok, k, p)| + if ok[k] && p(calls[k]) then 1 else 0
  {
    assert AdmittedWhere(calls, ok, k + 1, p) == AdmittedWhere(calls, ok, k, p) + if ok[k] && p(calls[k]) then {k} else {};
  }

  /** Counting the list is counting the calls. */
  lemma {:induction false} ChosenCount(calls: seq<real>, ok: seq<bool>, k: nat, p: real -> bool)
    requires k <= |calls| && k <= |ok|
    ensures |HeldWhere(Chosen(calls, ok, k), p)| == |AdmittedWhere(calls, ok, k, p)|
    decreases k
  {
    if k > 0 {
      var last := k - 1;
      ChosenCount(calls, ok, last, p);
      AdmittedWhereSnoc(calls, ok, last, p);
      HeldWhereSnoc(Chosen(calls, ok, last), calls[last], p);
      assert !ok[last] ==> Chosen(calls, ok, k) == Chosen(calls, ok, last);
    }
  }

  /** The admitted calls of the second before call `k`. */
  ghost function SecondBefore(calls: seq<real>, ok: seq<bool>, k: nat): set<nat>
    requires k < |ok| <= |calls|
  {
    set i: nat | i < k && ok[i] && calls[k] - calls[i] < 1.0
  }

  /** The admitted calls of the second that begins at `w`. */
  ghost function SecondFrom(calls: seq<real>, ok: seq<bool>, w: real): set<nat>
    requires |ok| == |calls|
  {
    set i: nat | i < |calls| && ok[i] && w <= calls[i] < w + 1.0
  }

  lemma DecisionIsRight(calls: seq<real>, ok: seq<bool>, k: nat)
    requires k < |ok| <= |calls| && DecidedRight(calls, ok, k)
    ensures ok[k] <==> |SecondBefore(calls, ok, k)| < 100
  {
    var p := (x: real) => calls[k] - x < 1.0;
    ChosenCount(calls, ok, k, p);
    assert HeldWhere(Chosen(calls, ok, k), p) == RecentOf(Chosen(calls, ok, k), calls[k], SECOND);
    assert AdmittedWhere(calls, ok, k, p) == SecondBefore(calls, ok, k);
  }

  lemma WindowIsWhere(admitted: seq<real>, w: real, p: real -> bool)
    requires forall x :: p(x) <==> w <= x < w + 1.0
    ensures HeldWhere(admitted, p) == InWindow(admitted, w, SECOND)
  {
  }

  lemma SecondFromIsWhere(calls: seq<real>, ok: seq<bool>, w: real, p: real -> bool)
    requires |ok| == |calls| && forall x :: p(x) <==> w <= x < w + 1.0
    ensures AdmittedWhere(calls, ok, |calls|, p) == SecondFrom(calls, ok, w)
  {
  }

  lemma SecondIsBounded(calls: seq<real>, ok: seq<bool>, times: seq<real>, h: History, w: real)
    requires |ok| == |calls| && Stands(times, h, RATE_PER_SECOND, SECOND) && h.admitted == Chosen(calls, ok, |calls|)
    ensures |SecondFrom(calls, ok, w)| <= 100
  {
    var p := (x: real) => w <= x < w + 1.0;
    RateIsBounded(times, h, w);
    ChosenCount(calls, ok, |calls|, p);
    WindowIsWhere(h.admitted, w, p);
    SecondFromIsWhere(calls, ok, w, p);
  }

  /** Any sequence of calls against one budget, on a clock that never goes back: no second ever holds
      more than a hundred admitted calls, and a call is refused exactly when the second before it
      holds a hundred. */
  method AdmitAll(calls: seq<real>) returns (ok: seq<bool>)
    requires Monotone(calls)
    ensures |ok| == |calls|
    ensures forall w :: |SecondFrom(calls, ok, w)| <= 100
    ensures forall k | 0 <= k < |calls| :: ok[k] <==> |SecondBefore(calls, ok, k)| < 100
  {
    ok := [];
    var times: seq<real> := [];
    ghost var h := History([], if calls == [] then 0.0 else calls[0]);
    for k := 0 to |calls|
      invariant |ok| == k && Stands(times, h, RATE_PER_SECOND, SECOND)
      invariant h.admitted == Chosen(calls, ok, k) && (k < |calls| ==> h.last <= calls[k])
      invariant forall j | 0 <= j < k :: DecidedRight(calls, ok, j)
    {
      var admitted;
      times, admitted := RateAdmit(times, RATE_PER_SECOND, calls[k], h);
      DecisionsStay(calls, ok, admitted);
      ChosenIsPast(calls, ok, admitted, k);
      ok := ok + [admitted];
      h := Called(h, calls[k], admitted);
    }
    forall w ensures |SecondFrom(calls, ok, w)| <= 100 { SecondIsBounded(calls, ok, times, h, w); }
    forall k | 0 <= k < |calls| ensures ok[k] <==> |SecondBefore(calls, ok, k)| < 100 { DecisionIsRight(calls, ok, k); }
  }

  // ---- Crashes ----

  const MAX_CRASHES := 5
  const CRASH_WINDOW := 60.0

  datatype Status = Running | Stopped | Crashed

  /** What happens to a worker: it is started or stopped, or its process goes away, and then a stop
      may arrive during the backoff and the new process may fail to start. */
  datatype Happening = Start(spawns: bool) | Stop | Crash(at: real, stoppedInBackoff: bool, respawns: bool)

  datatype Outcome = Restarted | Cleared | GivenUp | Ignored

  /** What a crash leads to, by all the restarts since the last stop. */
  ghost function Decide(status: Status, restarts: seq<real>, h: Happening): Outcome
  {
    if h.Stop? then Cleared
    else if h.Start? || status != Running then Ignored
    else if |RecentOf(restarts, h.at, CRASH_WINDOW)| >= MAX_CRASHES - 1 then GivenUp
    else if h.stoppedInBackoff then Cleared
    else if h.respawns then Restarted
    else GivenUp
  }

  function StatusAfter(status: Status, h: Happening, o: Outcome): Status
  {
    match o
    case Restarted => Running
    case Cleared => Stopped
    case GivenUp => Crashed
    case Ignored => if h.Start? && status == Stopped then (if h.spawns then Running else Crashed) else status
  }

  ghost function RestartsAfter(restarts: seq<real>, h: Happening, o: Outcome): seq<real>
  {
    match o
    case Restarted => if h.Crash? then restarts + [h.at] else restarts
    case Cleared => []
    case _ => restarts
  }

  /** A worker's crash record between two stops. */
  class CrashWindow {
    var status: Status
    var crashTimes: seq<real>
    /** Crashes since the last stop that were followed by an automatic start. */
    ghost var respawned: seq<real>
    ghost var last: real

    /** The worker is only given up after a crash, and then it stays down until it is stopped. */
    ghost predicate Valid()
      reads this
    {
      && Monotone(respawned) && Spaced(respawned, MAX_CRASHES - 1, CRASH_WINDOW)
      && (forall i | 0 <= i < |respawned| :: respawned[i] <= last)
      && (status != Crashed ==> Remembers(crashTimes, respawned, last, CRASH_WINDOW))
    }

    constructor ()
      ensures Valid() && status == Stopped && respawned == [] && last == 0.0
    {
      status, crashTimes, respawned, last := Stopped, [], [], 0.0;
    }

    /** A start is refused once the worker was given up. */
    method OnStart(spawns: bool)
      requires Valid()
      modifies `status
      ensures Valid()
      ensures status == StatusAfter(old(status), Start(spawns), Ignored)
    {
      if status == Stopped { status := if spawns then Running else Crashed; }
    }

    method OnStop()
      requires Valid()
      modifies `status, `crashTimes, `respawned
      ensures Valid() && status == Stopped && respawned == []
    {
      status := Stopped;
      crashTimes, respawned := [], [];
    }

    /** Forget what is older than a minute and count what is left: it is the restarts of the last
        minute. */
    method Trim(now: real) returns (recent: nat)
      requires Valid() && status == Running && last <= now
      modifies `crashTimes, `last
      ensures Valid() && last == now && |crashTimes| == recent
      ensures recent == |RecentOf(respawned, now, CRASH_WINDOW)|
    {
      TrimmedRemembers(crashTimes, respawned, last, now, CRASH_WINDOW);
      crashTimes := Recent(crashTimes, now, CRASH_WINDOW);
      last := now;
      RecentCount(crashTimes, respawned, now, CRASH_WINDOW);
      recent := |crashTimes|;
    }

    method Restart(now: real)
      requires Valid() && status == Running && |crashTimes| < MAX_CRASHES - 1 && now == last
      modifies `crashTimes, `respawned
      ensures Valid() && respawned == old(respawned) + [now]
    {
      AdmitKeepsSpacing(crashTimes, respawned, now, MAX_CRASHES - 1, CRASH_WINDOW);
      crashTimes, respawned := crashTimes + [now], respawned + [now];
    }

    /** The process went away.  Five crashes within a minute end it; otherwise it is started again,
        unless a stop arrives during the backoff or the start fails. */
    method OnCrash(now: real, stoppedInBackoff: bool, respawns: bool) returns (outcome: Outcome)
      requires Valid() && status == Running && last <= now
      modifies this
      ensures Valid() && last == now
      ensures outcome == Decide(Running, old(respawned), Crash(now, stoppedInBackoff, respawns))
      ensures var recent := |RecentOf(old(respawned), now, 60.0)|;
              outcome == if recent >= 4 then GivenUp else if stoppedInBackoff then Cleared else if respawns then Restarted else GivenUp
      ensures outcome == Restarted ==> status == Running && respawned == old(respawned) + [now]
      ensures outcome == Cleared ==> status == Stopped && respawned == []
      ensures outcome == GivenUp ==> status == Crashed && respawned == old(respawned)
    {
      var recent := Trim(now);
      if recent + 1 >= MAX_CRASHES {
        status, outcome := Crashed, GivenUp;
      } else if stoppedInBackoff {
        OnStop();
        outcome := Cleared;
      } else if respawns {
        Restart(now);
        outcome := Restarted;
      } else {
        status, outcome := Crashed, GivenUp;
      }
    }

    method OnHappening(h: Happening) returns (outcome: Outcome)
      requires Valid() && (h.Crash? ==> last <= h.at)
      modifies this
      ensures Valid() && old(last) <= last && (last == old(last) || (h.Crash? && last == h.at))
      ensures outcome == Decide(old(status), old(respawned), h)
      ensures status == StatusAfter(old(status), h, outcome) && respawned == RestartsAfter(old(respawned), h, outcome)
    {
      outcome := Ignored;
      match h
      case Start(spawns) => OnStart(spawns);
      case Stop =>
        OnStop();
        outcome := Cleared;
      case Crash(at, stoppedInBackoff, respawns) => if status == Running { outcome := OnCrash(at, stoppedInBackoff, respawns); }
    }
  }

  /** No minute holds more than four of these. */
  ghost predicate AtMostFour(restarts: seq<real>)
  {
    forall w :: |InWindow(restarts, w, CRASH_WINDOW)| <= 4
  }

  /** Between two stops, no minute holds more than four crashes that were followed by a start. */
  lemma RespawnsAreBounded(respawned: seq<real>)
    requires Monotone(respawned) && Spaced(respawned, MAX_CRASHES - 1, CRASH_WINDOW)
    ensures AtMostFour(respawned)
  {
    forall w ensures |InWindow(respawned, w, CRASH_WINDOW)| <= 4 { SpacedMeansBounded(respawned, MAX_CRASHES - 1, CRASH_WINDOW, w); }
  }

  // ---- A whole life ----

  /** Crashes come in the order of a clock that starts at zero. */
  ghost predicate InOrder(life: seq<Happening>)
  {
    && (forall i | 0 <= i < |life| && life[i].Crash? :: life[i].at >= 0.0)
    && (forall i, j | 0 <= i < j < |life| && life[i].Crash? && life[j].Crash? :: life[i].at <= life[j].at)
  }

  datatype Standing = Standing(status: Status, restarts: seq<real>)

  /** The worker's status and its restarts since the last stop, after the first `k` happenings. */
  ghost function StandingAfter(life: seq<Happening>, outcomes: seq<Outcome>, k: nat): Standing
    requires k <= |life| && k <= |outcomes|
  {
    if k == 0 then Standing(Stopped, [])
    else
      var was := StandingAfter(life, outcomes, k - 1);
      Standing(StatusAfter(was.status, life[k - 1], outcomes[k - 1]), RestartsAfter(was.restarts, life[k - 1], outcomes[k - 1]))
  }

  lemma {:induction false} StandingIsPast(life: seq<Happening>, outcomes: seq<Outcome>, o: Outcome, k: nat)
    requires k <= |life| && k <= |outcomes|
    ensures StandingAfter(life, outcomes + [o], k) == StandingAfter(life, outcomes, k)
  {
    if k > 0 { StandingIsPast(life, outcomes, o, k - 1); }
  }

  ghost predicate RightlyDecided(life: seq<Happening>, outcomes: seq<Outcome>, k: nat)
    requires k < |outcomes| <= |life|
  {
    var was := StandingAfter(life, outcomes, k);
    outcomes[k] == Decide(was.status, was.restarts, life[k]) && AtMostFour(StandingAfter(life, outcomes, k + 1).restarts)
  }

  lemma DecidedStay(life: seq<Happening>, outcomes: seq<Outcome>, o: Outcome, j: nat)
    requires j < |outcomes| < |life| && RightlyDecided(life, outcomes, j)
    ensures RightlyDecided(life, outcomes + [o], j)
  {
    StandingIsPast(life, outcomes, o, j);
    StandingIsPast(life, outcomes, o, j + 1);
  }

  // ---- The same life, told by its happenings alone ----

  ghost predicate NoStopSince(outcomes: seq<Outcome>, j: nat, k: nat)
    requires k <= |outcomes|
  {
    forall i | j < i < k :: outcomes[i] != Cleared
  }

  /** The crashes before happening `k` that were followed by a start, with no stop since. */
  ghost function RestartedWhere(life: seq<Happening>, outcomes: seq<Outcome>, k: nat, p: real -> bool): set<nat>
    requires k <= |outcomes| && k <= |life|
  {
    set j: nat | j < k && outcomes[j] == Restarted && life[j].Crash? && p(life[j].at) && NoStopSince(outcomes, j, k)
  }

  lemma RestartedWhereSnoc(life: seq<Happening>, outcomes: seq<Outcome>, k: nat, p: real -> bool)
    requires k < |outcomes| && k < |life|
    ensures outcomes[k] == Cleared ==> RestartedWhere(life, outcomes, k + 1, p) == {}
    ensures outcomes[k] != Cleared ==>
              |RestartedWhere(life, outcomes, k + 1, p)| ==
              |RestartedWhere(life, outcomes, k, p)| + if outcomes[k] == Restarted && life[k].Crash? && p(life[k].at) then 1 else 0
  {
    var next := k + 1;
    if outcomes[k] == Cleared {
      forall j: nat | j < k ensures !NoStopSince(outcomes, j, next) { assert outcomes[k] == Cleared; }
    } else {
      forall j: nat | j < k ensures NoStopSince(outcomes, j, next) <==> NoStopSince(outcomes, j, k) { }
      assert NoStopSince(outcomes, k, next);
      assert RestartedWhere(life, outcomes, next, p) ==
             RestartedWhere(life, outcomes, k, p) + if outcomes[k] == Restarted && life[k].Crash? && p(life[k].at) then {k} else {};
    }
  }

  lemma {:induction false} RestartsCount(life: seq<Happening>, outcomes: seq<Outcome>, k: nat, p: real -> bool)
    requires k <= |life| && k <= |outcomes|
    ensures |HeldWhere(StandingAfter(life, outcomes, k).restarts, p)| == |RestartedWhere(life, outcomes, k, p)|
    decreases k
  {
    if k > 0 {
      var last := k - 1;
      var was := StandingAfter(life, outcomes, last).restarts;
      RestartsCount(life, outcomes, last, p);
      RestartedWhereSnoc(life, outcomes, last, p);
      if life[last].Crash? { HeldWhereSnoc(was, life[last].at, p); }
    } else {
      assert RestartedWhere(life, outcomes, 0, p) == {};
    }
  }

  /** Those of the minute before a crash. */
  ghost function MinuteBefore(life: seq<Happening>, outcomes: seq<Outcome>, k: nat, now: real): set<nat>
    requires k <= |outcomes| && k <= |life|
  {
    set j: nat | j < k && outcomes[j] == Restarted && life[j].Crash? && now - life[j].at < 60.0 && NoStopSince(outcomes, j, k)
  }

  /** Those of the minute that begins at `w`. */
  ghost function MinuteFrom(life: seq<Happening>, outcomes: seq<Outcome>, k: nat, w: real): set<nat>
    requires k <= |outcomes| && k <= |life|
  {
    set j: nat | j < k && outcomes[j] == Restarted && life[j].Crash? && w <= life[j].at < w + 60.0 && NoStopSince(outcomes, j, k)
  }

  lemma MinuteBeforeCount(life: seq<Happening>, outcomes: seq<Outcome>, k: nat, now: real)
    requires k <= |outcomes| && k <= |life|
    ensures |RecentOf(StandingAfter(life, outcomes, k).restarts, now, 60.0)| == |MinuteBefore(life, outcomes, k, now)|
  {
    var p := (x: real) => now - x < 60.0;
    RestartsCount(life, outcomes, k, p);
    assert HeldWhere(StandingAfter(life, outcomes, k).restarts, p) == RecentOf(StandingAfter(life, outcomes, k).restarts, now, 60.0);
    assert RestartedWhere(life, outcomes, k, p) == MinuteBefore(life, outcomes, k, now);
  }

  lemma MinuteFromCount(life: seq<Happening>, outcomes: seq<Outcome>, k: nat, w: real)
    requires k <= |outcomes| && k <= |life|
    ensures |InWindow(StandingAfter(life, outcomes, k).restarts, w, 60.0)| == |MinuteFrom(life, outcomes, k, w)|
  {
    var p := (x: real) => w <= x < w + 60.0;
    RestartsCount(life, outcomes, k, p);
    assert HeldWhere(StandingAfter(life, outcomes, k).restarts, p) == InWindow(StandingAfter(life, outcomes, k).restarts, w, 60.0);
    assert RestartedWhere(life, outcomes, k, p) == MinuteFrom(life, outcomes, k, w);
  }

  /** What one happening comes to: a stop clears the record; a start brings a stopped worker up, or
      gives it up; a crash of a running worker gives it up if the minute before held four restarts,
      and else it is started again, unless a stop came first or the start failed. */
  ghost predicate ComesTo(life: seq<Happening>, outcomes: seq<Outcome>, k: nat, was: Status, now: Status)
    requires k < |outcomes| && k < |life|
  {
    match life[k]
    case Stop => outcomes[k] == Cleared && now == Stopped
    case Start(spawns) =>
      outcomes[k] == Ignored && now == if was != Stopped then was else if spawns then Running else Crashed
    case Crash(at, stoppedInBackoff, respawns) =>
      if was != Running then outcomes[k] == Ignored && now == was
      else if |MinuteBefore(life, outcomes, k, at)| >= 4 then outcomes[k] == GivenUp && now == Crashed
      else if stoppedInBackoff then outcomes[k] == Cleared && now == Stopped
      else if respawns then outcomes[k] == Restarted && now == Running
      else outcomes[k] == GivenUp && now == Crashed
  }

  lemma DecidedComesTo(life: seq<Happening>, outcomes: seq<Outcome>, k: nat)
    requires k < |outcomes| <= |life| && RightlyDecided(life, outcomes, k)
    ensures ComesTo(life, outcomes, k, StandingAfter(life, outcomes, k).status, StandingAfter(life, outcomes, k + 1).status)
  {
    if life[k].Crash? { MinuteBeforeCount(life, outcomes, k, life[k].at); }
  }

  lemma MinuteIsBounded(life: seq<Happening>, outcomes: seq<Outcome>, k: nat, w: real)
    requires k < |outcomes| <= |life| && RightlyDecided(life, outcomes, k)
    ensures |MinuteFrom(life, outcomes, k + 1, w)| <= 4
  {
    MinuteFromCount(life, outcomes, k + 1, w);
    assert |InWindow(StandingAfter(life, outcomes, k + 1).restarts, w, CRASH_WINDOW)| <= 4;
  }

  /** Any life of a worker that begins stopped: every crash is decided by all the restarts since the
      last stop, although only a minute of them is remembered, and those never exceed four in a
      minute. */
  method Live(life: seq<Happening>) returns (outcomes: seq<Outcome>, ghost statuses: seq<Status>)
    requires InOrder(life)
    ensures |outcomes| == |life| && |statuses| == |life| + 1 && statuses[0] == Stopped
    ensures forall k | 0 <= k < |life| :: ComesTo(life, outcomes, k, statuses[k], statuses[k + 1])
    ensures forall k: nat, w | k <= |life| :: |MinuteFrom(life, outcomes, k, w)| <= 4
  {
    outcomes := [];
    var worker := new CrashWindow();
    for k := 0 to |life|
      invariant |outcomes| == k && worker.Valid() && fresh(worker)
      invariant forall j | k <= j < |life| && life[j].Crash? :: worker.last <= life[j].at
      invariant StandingAfter(life, outcomes, k) == Standing(worker.status, worker.respawned)
      invariant forall j | 0 <= j < k :: RightlyDecided(life, outcomes, j)
    {
      ghost var before := outcomes;
      var outcome := worker.OnHappening(life[k]);
      outcomes := outcomes + [outcome];
      StandingIsPast(life, before, outcome, k);
      RespawnsAreBounded(worker.respawned);
      forall j | 0 <= j < k ensures RightlyDecided(life, outcomes, j) { DecidedStay(life, before, outcome, j); }
    }
    statuses := seq(|life| + 1, k requires 0 <= k <= |life| => StandingAfter(life, outcomes, k).status);
    forall k | 0 <= k < |life| ensures ComesTo(life, outcomes, k, statuses[k], statuses[k + 1]) { DecidedComesTo(life, outcomes, k); }
    forall k: nat, w | k <= |life| ensures |MinuteFrom(life, outcomes, k, w)| <= 4 {
      if k > 0 { MinuteIsBounded(life, outcomes, k - 1, w); }
    }
  }
}
