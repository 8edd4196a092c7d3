/**
  The bootloader's wait for a CAN host, boot_go_hook. Time is counted in milliseconds without bound;
  the code sees it modulo 2^32 and compares it through signed 32-bit differences.
 */
module BootWait {
  import opened Bytes

  const TWO_31 := 0x8000_0000
  const PROBE_INTERVAL := 200
  const POLL := 50
  const MAX_BUSY := 30000
  /** The longest a probe can take to send with nobody on the bus. */
  const SEND_TIMEOUT := 100

  /** k_uptime_get_32. */
  function Clock(t: nat): uint32 {
    t % TWO_32
  }

  /** (int32_t)(a - b). */
  function Diff(a: uint32, b: uint32): int {
    var d := (a - b) % TWO_32;
    if d < TWO_31 then d else d - TWO_32
  }

  /** The signed difference of two readings is the elapsed time, whatever wrapped, if that is under 2^31 ms. */
  lemma DiffIsElapsed(t: nat, u: nat)
    requires -TWO_31 <= t - u < TWO_31
    ensures Diff(Clock(t), Clock(u)) == t - u
  {
    assert (Clock(t) - Clock(u)) % TWO_32 == (t - u) % TWO_32 by {
      assert t == TWO_32 * (t / TWO_32) + Clock(t);
      assert u == TWO_32 * (u / TWO_32) + Clock(u);
    }
  }

  // ---------------------------------------------------------------- probing

  /** One turn of the probe loop: the time a probe takes to send, whether the host answers, and lateness. */
  datatype Turn = Turn(sendMs: nat, acked: bool, early: nat, late: nat)

  ghost predicate Plausible(turns: nat -> Turn, slack: nat) {
    forall k :: turns(k).sendMs <= SEND_TIMEOUT && turns(k).late <= slack
  }

  /** Time left, as the code's unsigned subtraction computes it. */
  lemma RemainingTime(t: nat, deadline: nat)
    requires t < deadline < t + TWO_31
    ensures (Clock(deadline) - Clock(t)) % TWO_32 == deadline - t
  {
    DiffIsElapsed(deadline, t);
  }

  lemma FirstDiff(now: uint32)
    ensures Diff(now, 0) >= 0 <==> now < TWO_31
  {
  }

  /** One pass through the body of the probe loop at time t, before the deadline. */
  method ProbeTurn(t: nat, ghost deadlineMs: nat, deadline: uint32, nextProbe: uint32, turn: Turn)
    returns (sent: bool, next: uint32, after: nat)
    requires t < deadlineMs < t + TWO_31 && deadline == Clock(deadlineMs)
    ensures sent <==> Diff(Clock(t), nextProbe) >= 0
    ensures next == if sent then (Clock(t) + PROBE_INTERVAL) % TWO_32 else nextProbe
    ensures turn.acked ==> t <= after <= t + Min(deadlineMs - t, POLL) + turn.sendMs
    ensures !turn.acked ==>
      after == t + Min(deadlineMs - t, POLL) + turn.late + (if sent then turn.sendMs else 0)
  {
    var now := Clock(t);
    RemainingTime(t, deadlineMs);
    hide Clock;
    sent, next, after := false, nextProbe, t;
    if Diff(now, nextProbe) >= 0 {
      sent := true;
      after := after + turn.sendMs;
      next := (now + PROBE_INTERVAL) % TWO_32;
    }
    var wait := Min((deadline - now) % TWO_32, POLL);
    after := after + (if turn.acked then Min(turn.early, wait) else wait + turn.late);
  }

  lemma ClockAhead(t: nat, n: nat)
    ensures (Clock(t) + n) % TWO_32 == Clock(t + n)
  {
  }

  /** The state of next_probe: 0 until the first probe, then PROBE_INTERVAL behind the last one. */
  predicate NextProbeIs(nextProbe: uint32, probes: seq<nat>) {
    nextProbe == if probes == [] then 0 else Clock(probes[|probes| - 1] + PROBE_INTERVAL)
  }

  predicate Spaced(probes: seq<nat>) {
    forall k | 0 < k < |probes| :: probes[k - 1] + PROBE_INTERVAL <= probes[k]
  }

  /** Whether a turn at time t sends a probe. */
  lemma ProbesWhen(t: nat, t0: nat, nextProbe: uint32, probes: seq<nat>)
    requires NextProbeIs(nextProbe, probes) && t < t0 + TWO_31
    requires probes != [] ==> t0 <= probes[|probes| - 1] <= t
    ensures Diff(Clock(t), nextProbe) >= 0 <==>
            if probes == [] then Clock(t) < TWO_31 else t >= probes[|probes| - 1] + PROBE_INTERVAL
  {
    hide Diff, Clock;
    if probes == [] {
      FirstDiff(Clock(t));
    } else {
      DiffIsElapsed(t, probes[|probes| - 1] + PROBE_INTERVAL);
    }
  }

  /**
    The probe loop from time t0; `times` are its clock readings. Without an answer k_sem_take uses up its
    whole timeout, so the loop ends, and when it does at most one send and one late wake-up have passed
    beyond the deadline. As next_probe starts at 0, no probe goes out until a reading is below 2^31 ms, and
    none at all if every reading of the window is not; later ones keep their interval.
   */
  method ProbeLoop(t0: nat, timeout: nat, slack: nat, turns: nat -> Turn)
    returns (acked: bool, t: nat, probes: seq<nat>, times: seq<nat>)
    requires timeout < TWO_31 - SEND_TIMEOUT - slack
    requires Plausible(turns, slack)
    ensures t0 <= t <= t0 + timeout + SEND_TIMEOUT + slack
    ensures !acked ==> t >= t0 + timeout
    ensures |times| <= timeout && (timeout > 0 ==> times != [] && times[0] == t0)
    ensures acked ==> times != [] && turns(|times| - 1).acked
    ensures forall k | 0 <= k < |times| - 1 :: !turns(k).acked
    ensures probes == [] <==> forall k | 0 <= k < |times| :: Clock(times[k]) >= TWO_31
    ensures probes != [] ==> exists m | 0 <= m < |times| ::
      probes[0] == times[m] && Clock(times[m]) < TWO_31 && forall k | 0 <= k < m :: Clock(times[k]) >= TWO_31
    ensures Spaced(probes) && forall p | p in probes :: t0 <= p < t0 + timeout
  {
    hide Diff, Clock;
    var deadline := Clock(t0 + timeout);
    var nextProbe: uint32 := 0;
    acked, t, probes, times := false, t0, [], [];
    ghost var m := 0;
    while !acked
      invariant t0 <= t <= t0 + timeout + SEND_TIMEOUT + slack
      invariant |times| <= t - t0 + (if acked then 1 else 0) && |times| <= timeout
      invariant if times == [] then t == t0 && !acked else times[0] == t0
      invariant acked ==> times != [] && turns(|times| - 1).acked
      invariant forall k | 0 <= k < (if acked then |times| - 1 else |times|) :: !turns(k).acked
      invariant NextProbeIs(nextProbe, probes) && Spaced(probes)
      invariant forall p | p in probes :: t0 <= p < t0 + timeout && p <= t
      invariant if probes == [] then m == |times| else m < |times| && probes[0] == times[m] && Clock(times[m]) < TWO_31
      invariant forall k | 0 <= k < m :: Clock(times[k]) >= TWO_31
      decreases if acked then 0 else 1, t0 + timeout + SEND_TIMEOUT + slack - t
    {
      DiffIsElapsed(t, t0 + timeout);
      if Diff(Clock(t), deadline) >= 0 {
        return;
      }
      assert probes != [] ==> probes[|probes| - 1] in probes;
      ProbesWhen(t, t0, nextProbe, probes);
      ClockAhead(t, PROBE_INTERVAL);
      var sent, next, after := ProbeTurn(t, t0 + timeout, deadline, nextProbe, turns(|times|));
      if probes == [] && !sent {
        m := m + 1;
      }
      times := times + [t];
      if sent {
        probes := probes + [t];
      }
      nextProbe, t, acked := next, after, turns(|times| - 1).acked;
    }
  }

  // ---------------------------------------------------------------- waiting for the image

  /**
    One pass of the idle-wait loop: the time at which the clock is read, whether the image was already
    confirmed, and the two readings of the receive thread's last-activity time and busy flag, in the
    order the two conditions read them.
   */
  datatype Poll = Poll(now: nat, confirmed: bool, last1: nat, busy1: bool, busy2: bool, last2: nat)

  predicate IdleOut(p: Poll, idle: nat) {
    Diff(Clock(p.now), Clock(p.last1)) >= idle && !p.busy1
  }

  predicate StuckOut(p: Poll) {
    p.busy2 && Diff(Clock(p.now), Clock(p.last2)) >= MAX_BUSY
  }

  predicate Leaves(p: Poll, idle: nat) {
    p.confirmed || IdleOut(p, idle) || StuckOut(p)
  }

  /** k_msleep(POLL) sleeps at least POLL; `slack` bounds how late a thread gets to run. */
  ghost predicate Polling(polls: nat -> Poll, start: nat, slack: nat) {
    && start <= polls(0).now <= start + slack
    && forall k: nat :: polls(k).now + POLL <= polls(k + 1).now <= polls(k).now + POLL + slack
  }

  predicate Fell(p: Poll) {
    p.busy1 && !p.busy2
  }

  /**
    No firmware frame is handled after time `quiet`: from then on the last activity reads `quiet`, and
    the busy flag (raised once after the activity is noted, lowered once) never rises again once it fell.
   */
  ghost predicate QuietSince(polls: nat -> Poll, quiet: nat) {
    && (forall k: nat | polls(k).now >= quiet :: polls(k).last1 == quiet == polls(k).last2)
    && (forall j: nat, k: nat | j < k && polls(j).now >= quiet && Fell(polls(j)) ::
          !polls(k).busy1 && !polls(k).busy2)
  }

  function Patience(idle: nat): nat {
    if idle < MAX_BUSY then MAX_BUSY else idle
  }

  /** A poll late enough that stays can only have seen the busy flag fall between its two readings. */
  lemma LateStayMeansFell(p: Poll, idle: nat, quiet: nat)
    requires p.last1 == quiet == p.last2
    requires quiet + Patience(idle) <= p.now < quiet + TWO_31
    requires !Leaves(p, idle)
    ensures Fell(p)
  {
    DiffIsElapsed(p.now, quiet);
  }

  /**
    When a poll leaves, in elapsed time: on a confirmed image; with the receive thread idle, once `idle` ms
    have passed since the last activity; with the thread busy, once 30 s have. The second half: a thread
    that is busy at both readings is waited for, however long ago `idle` ran out.
   */
  lemma LeavesIff(p: Poll, idle: nat)
    requires -TWO_31 <= p.now - p.last1 < TWO_31 && -TWO_31 <= p.now - p.last2 < TWO_31
    ensures Leaves(p, idle) <==>
      p.confirmed || (!p.busy1 && p.last1 + idle <= p.now) || (p.busy2 && p.last2 + 30000 <= p.now)
    ensures p.busy1 && p.busy2 && p.now < p.last2 + 30000 ==> (Leaves(p, idle) <==> p.confirmed)
  {
    hide Diff, Clock;
    DiffIsElapsed(p.now, p.last1);
    DiffIsElapsed(p.now, p.last2);
  }

  /** A poll whose reading is not older than the idle time, nor 30 s, leaves only on a confirmed image. */
  lemma RecentActivityKeepsWaiting(p: Poll, idle: nat)
    requires -TWO_31 <= p.now - p.last1 < idle && -TWO_31 <= p.now - p.last2 < 30000
    requires idle <= TWO_31
    ensures Leaves(p, idle) <==> p.confirmed
  {
    LeavesIff(p, idle);
  }

  /**
    The idle-wait loop. If no firmware frame is handled after `quiet`, it is left within
    max(idle, 30000) ms of that moment plus two polls, whatever the uptime and whether or not the busy
    flag is stuck. It leaves at the first poll that may.
   */
  method IdleWait(start: nat, idle: nat, slack: nat, polls: nat -> Poll, ghost quiet: nat)
    returns (confirmed: bool, n: nat)
    requires Polling(polls, start, slack) && QuietSince(polls, quiet) && start <= quiet
    requires Patience(idle) + 2 * (POLL + slack) < TWO_31
    ensures Leaves(polls(n), idle) && (forall k: nat | k < n :: !Leaves(polls(k), idle))
    ensures confirmed == polls(n).confirmed
    ensures polls(n).now <= quiet + Patience(idle) + 2 * (POLL + slack)
  {
    hide Diff, Clock;
    ghost var late := quiet + Patience(idle);
    ghost var step := POLL + slack;
    n := 0;
    while !polls(n).confirmed
      invariant polls(n).now <= late + 2 * step
      invariant n > 0 && polls(n - 1).now >= late ==> Fell(polls(n - 1)) && polls(n).busy1 == false
      invariant polls(n).now <= late + step || (n > 0 && polls(n - 1).now >= late)
      invariant forall k: nat | k < n :: !Leaves(polls(k), idle)
      decreases late + 2 * step - polls(n).now
    {
      var p := polls(n);
      if Diff(Clock(p.now), Clock(p.last1)) >= idle && !p.busy1 {
        break;
      }
      if p.busy2 && Diff(Clock(p.now), Clock(p.last2)) >= MAX_BUSY {
        break;
      }
      assert !Leaves(p, idle);
      if p.now >= late {
        LateStayMeansFell(p, idle, quiet);
      }
      n := n + 1;
    }
    confirmed := polls(n).confirmed;
  }
}
