/** Two clocks: the heartbeat that keeps a leased message from being redelivered, and the watchdog
    that restarts a poll loop which stopped moving.  Times are seconds; queries take no time. */
module Timing {
  import opened Common

  // ---- The lease of a message ----

  const VISIBILITY := 120.0
  const INTERVAL := 30.0
  const LIFETIME := 21600.0

  function AttemptAt(start: real, k: nat): real
  {
    start + INTERVAL * k as real
  }

  /** When the message becomes visible again, after the renewals attempted so far: a successful one
      counts from its own moment, a failed one changes nothing. */
  function VisibleAt(read: real, start: real, outcomes: seq<bool>): real
  {
    if outcomes == [] then read + VISIBILITY
    else if outcomes[|outcomes| - 1] then AttemptAt(start, |outcomes|) + VISIBILITY
    else VisibleAt(read, start, outcomes[..|outcomes| - 1])
  }

  ghost predicate NoThreeFailures(outcomes: seq<bool>)
  {
    forall i | 0 <= i < |outcomes| - 2 :: outcomes[i] || outcomes[i + 1] || outcomes[i + 2]
  }

  /** Between attempt `|outcomes|` and the next one, both moments included. */
  predicate Between(start: real, outcomes: seq<bool>, t: real)
  {
    AttemptAt(start, |outcomes|) <= t <= AttemptAt(start, |outcomes| + 1)
  }

  lemma LastOutcome(read: real, start: real, outcomes: seq<bool>)
    requires outcomes != []
    ensures VisibleAt(read, start, outcomes) ==
            if outcomes[|outcomes| - 1] then AttemptAt(start, |outcomes|) + VISIBILITY
            else VisibleAt(read, start, outcomes[..|outcomes| - 1])
  {
  }

  lemma LastThree(read: real, start: real, outcomes: seq<bool>)
    requires |outcomes| >= 3 && NoThreeFailures(outcomes)
    ensures VisibleAt(read, start, outcomes) >= AttemptAt(start, |outcomes|) - 60.0 + VISIBILITY
  {
    var n := |outcomes|;
    assert outcomes[n - 3] || outcomes[n - 2] || outcomes[n - 1];
    var b := outcomes[..n - 1];
    var c := b[..n - 2];
    LastOutcome(read, start, outcomes);
    LastOutcome(read, start, b);
    LastOutcome(read, start, c);
  }

  lemma FirstTwo(read: real, start: real, outcomes: seq<bool>, t: real)
    requires read <= start < read + INTERVAL && |outcomes| <= 2 && Between(start, outcomes, t)
    ensures t < VisibleAt(read, start, outcomes)
  {
    if |outcomes| > 0 {
      var b := outcomes[..|outcomes| - 1];
      LastOutcome(read, start, outcomes);
      if |b| > 0 { LastOutcome(read, start, b); }
    }
  }

  ghost predicate LastSuccess(outcomes: seq<bool>, i: nat)
  {
    i < |outcomes| && outcomes[i] && forall j | i < j < |outcomes| :: !outcomes[j]
  }

  /** The lease ends two minutes after the last renewal that succeeded; the first is half a minute after
      the start, and each half a minute after the one before. */
  lemma {:induction false} LeaseEndsAfterRenewal(read: real, start: real, outcomes: seq<bool>, i: nat)
    requires LastSuccess(outcomes, i)
    ensures VisibleAt(read, start, outcomes) == start + 30.0 * (i + 1) as real + 120.0
    decreases |outcomes|
  {
    var n := |outcomes| - 1;
    if i < n {
      assert LastSuccess(outcomes[..n], i);
      LeaseEndsAfterRenewal(read, start, outcomes[..n], i);
    }
  }

  /** Without one, it ends two minutes after the read. */
  lemma {:induction false} LeaseEndsAfterRead(read: real, start: real, outcomes: seq<bool>)
    requires forall i | 0 <= i < |outcomes| :: !outcomes[i]
    ensures VisibleAt(read, start, outcomes) == read + 120.0
    decreases |outcomes|
  {
    if outcomes != [] { LeaseEndsAfterRead(read, start, outcomes[..|outcomes| - 1]); }
  }

  /** A heartbeat that started within thirty seconds of the read, and never sees three failed
      renewals in a row, keeps the message leased at every moment it runs. */
  lemma LeaseIsHeld(read: real, start: real, outcomes: seq<bool>, t: real)
    requires read <= start < read + 30.0 && NoThreeFailures(outcomes) && Between(start, outcomes, t)
    ensures t < VisibleAt(read, start, outcomes)
  {
    if |outcomes| >= 3 {
      LastThree(read, start, outcomes);
    } else {
      FirstTwo(read, start, outcomes, t);
    }
  }

  ghost predicate AlwaysHeld(read: real, start: real)
  {
    forall outcomes, t :: NoThreeFailures(outcomes) && Between(start, outcomes, t) ==> t < VisibleAt(read, start, outcomes)
  }

  lemma LateHeartbeatLoses(read: real, start: real) returns (outcomes: seq<bool>, t: real)
    requires start >= read + INTERVAL
    ensures NoThreeFailures(outcomes) && Between(start, outcomes, t) && t >= VisibleAt(read, start, outcomes)
  {
    if start >= read + 120.0 {
      outcomes, t := [], start;
    } else if start >= read + 90.0 {
      outcomes, t := [], read + 120.0;
    } else if start >= read + 60.0 {
      outcomes, t := [false], read + 120.0;
      LastOutcome(read, start, [false]);
    } else {
      outcomes, t := [false, false], read + 120.0;
      LastOutcome(read, start, outcomes);
      LastOutcome(read, start, outcomes[..1]);
    }
  }

  /** The thirty seconds are exact: a later start can lose the lease to two failed renewals. */
  lemma AlwaysHeldIff(read: real, start: real)
    requires read <= start
    ensures AlwaysHeld(read, start) <==> start < read + 30.0
  {
    if start < read + 30.0 {
      forall outcomes, t | NoThreeFailures(outcomes) && Between(start, outcomes, t) ensures t < VisibleAt(read, start, outcomes) {
        LeaseIsHeld(read, start, outcomes, t);
      }
    } else {
      var outcomes, t := LateHeartbeatLoses(read, start);
      assert Between(start, outcomes, t);
    }
  }

  /** A hung handler: no renewal can put redelivery off beyond the lifetime and one more lease. */
  lemma {:induction false} HungHandlerIsReleased(read: real, start: real, outcomes: seq<bool>)
    requires read <= start && 30.0 * |outcomes| as real <= 21600.0
    ensures VisibleAt(read, start, outcomes) <= start + 21600.0 + 120.0
    decreases |outcomes|
  {
    if outcomes != [] { HungHandlerIsReleased(read, start, outcomes[..|outcomes| - 1]); }
  }

  /** The heartbeat loop.  It renews every interval until the handler finishes, at `cancelAt`, or the
      lifetime is over; at the last moment either may come first. */
  method LeaseHeartbeat(read: real, start: real, renewal: nat -> bool, cancelAt: Option<real>, deadlineFirst: bool)
    returns (outcomes: seq<bool>, visibleAt: real, end: real)
    requires read <= start && (cancelAt.Some? ==> start <= cancelAt.value)
    ensures visibleAt == VisibleAt(read, start, outcomes)
    ensures forall i | 0 <= i < |outcomes| :: outcomes[i] == renewal(i)
    ensures Between(start, outcomes, end) && end <= start + 21600.0
    ensures end == start + 21600.0 || (cancelAt.Some? && end == cancelAt.value)
  {
    outcomes, visibleAt := [], read + VISIBILITY;
    while true
      invariant visibleAt == VisibleAt(read, start, outcomes)
      invariant forall i | 0 <= i < |outcomes| :: outcomes[i] == renewal(i)
      invariant AttemptAt(start, |outcomes|) <= start + LIFETIME
      invariant cancelAt.Some? ==> AttemptAt(start, |outcomes|) <= cancelAt.value
      decreases 720 - |outcomes|
    {
      var next := AttemptAt(start, |outcomes| + 1);
      var deadline := start + LIFETIME;
      if cancelAt.Some? && cancelAt.value <= next && cancelAt.value <= deadline {
        end := cancelAt.value;
        return;
      }
      if deadline < next || (deadline == next && deadlineFirst) {
        end := deadline;
        return;
      }
      var ok := renewal(|outcomes|);
      outcomes := outcomes + [ok];
      assert outcomes[..|outcomes| - 1] + [ok] == outcomes;
      if ok { visibleAt := next + VISIBILITY; }
    }
  }

  // ---- The watchdog ----

  const STALL_AFTER := 120
  const WATCHDOG_INTERVAL := 15.0

  /** Both clocks are read in whole seconds. */
  predicate Stalled(now: real, lastTick: real)
  {
    now.Floor - lastTick.Floor > STALL_AFTER
  }

  function CheckAt(started: real, k: nat): real
  {
    started + WATCHDOG_INTERVAL * k as real
  }

  ghost predicate TickedLately(now: real, lastTick: real)
  {
    lastTick <= now <= lastTick + 120.0
  }

  /** A loop that ticked no more than 120 seconds ago is never taken for a stalled one. */
  lemma TickingLoopIsSpared(now: real, lastTick: real)
    requires TickedLately(now, lastTick)
    ensures !Stalled(now, lastTick)
  {
    assert now.Floor <= (lastTick + 120.0).Floor;
    assert (lastTick + 120.0).Floor == lastTick.Floor + 120;
  }

  lemma SparedIfLately(now: real, lastTick: real)
    ensures TickedLately(now, lastTick) ==> !Stalled(now, lastTick)
  {
    if TickedLately(now, lastTick) { TickingLoopIsSpared(now, lastTick); }
  }

  function CheckAfter(started: real, when: real): (k: nat)
    requires started <= when
    ensures CheckAt(started, k) >= when && (k > 0 ==> CheckAt(started, k) < when + WATCHDOG_INTERVAL)
  {
    var q := ((when - started) / WATCHDOG_INTERVAL).Floor;
    if CheckAt(started, q) >= when then q else q + 1
  }

  /** One that stops ticking is aborted within 136 seconds of its last tick. */
  lemma DeadLoopIsAborted(started: real, lastTick: real) returns (k: nat)
    requires started <= lastTick
    ensures k > 0 && lastTick <= CheckAt(started, k) < lastTick + 136.0 && Stalled(CheckAt(started, k), lastTick)
    ensures forall j | 0 <= j < k && lastTick <= CheckAt(started, j) <= lastTick + 120.0 :: !Stalled(CheckAt(started, j), lastTick)
  {
    var when := lastTick.Floor as real + 121.0;
    k := CheckAfter(started, when);
    var now := CheckAt(started, k);
    assert now.Floor >= lastTick.Floor + 121;
    forall j | 0 <= j < k && lastTick <= CheckAt(started, j) <= lastTick + 120.0 ensures !Stalled(CheckAt(started, j), lastTick) {
      TickingLoopIsSpared(CheckAt(started, j), lastTick);
    }
  }

  /** Rounding to whole seconds costs almost a second: 135 would not be enough. */
  lemma AbortCanTakeLonger()
    ensures forall k: nat | CheckAt(1.99, k) <= 16.0 + 135.0 :: !Stalled(CheckAt(1.99, k), 16.0)
  {
    forall k: nat | CheckAt(1.99, k) <= 16.0 + 135.0 ensures !Stalled(CheckAt(1.99, k), 16.0) {
      assert k <= 9;
      assert CheckAt(1.99, k) <= 136.99;
    }
  }

  /** The supervisor's inner loop: looks at the tick every fifteen seconds and stops at the first
      look that finds it too old, if there is one among the first `looks`.  A loop that is never
      found to have last ticked more than 120 seconds ago is left alone throughout. */
  method Watch(started: real, lastTick: nat -> real, looks: nat) returns (stalledAt: Option<nat>)
    ensures stalledAt.Some? ==> 0 < stalledAt.value <= looks && Stalled(CheckAt(started, stalledAt.value), lastTick(stalledAt.value))
    ensures forall k | 0 < k <= looks && (stalledAt.None? || k < stalledAt.value) :: !Stalled(CheckAt(started, k), lastTick(k))
    ensures (forall k | 0 < k <= looks :: TickedLately(CheckAt(started, k), lastTick(k))) ==> stalledAt.None?
  {
    var k := 0;
    while k < looks
      invariant 0 <= k <= looks
      invariant forall j | 0 < j <= k :: !Stalled(CheckAt(started, j), lastTick(j))
    {
      k := k + 1;
      var gap := CheckAt(started, k).Floor - lastTick(k).Floor;
      SparedIfLately(CheckAt(started, k), lastTick(k));
      if gap > STALL_AFTER { return Some(k); }
    }
    return None;
  }

  /** A loop that last ticked at `last`, so that every look from then on finds that tick, is caught
      before 136 seconds have passed, if the watchdog looks long enough. */
  method WatchDeadLoop(started: real, lastTick: nat -> real, looks: nat, ghost last: real) returns (stalledAt: nat)
    requires started <= last && last + 136.0 <= CheckAt(started, looks)
    requires forall k | 0 < k <= looks && last <= CheckAt(started, k) :: lastTick(k) == last
    ensures 0 < stalledAt <= looks && CheckAt(started, stalledAt) < last + 136.0
    ensures Stalled(CheckAt(started, stalledAt), lastTick(stalledAt))
    ensures forall k | 0 < k < stalledAt :: !Stalled(CheckAt(started, k), lastTick(k))
  {
    ghost var k := DeadLoopIsAborted(started, last);
    assert k <= looks && last <= CheckAt(started, k);
    var found := Watch(started, lastTick, looks);
    assert found.Some? && found.value <= k;
    stalledAt := found.value;
  }
}
