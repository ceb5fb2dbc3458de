/**
 * The one-shot timer capability "sys.timer.once"
 * (calvinsys/common/cc_calvinsys_timer.c). A timer is armed with a timeout
 * in seconds and becomes readable once that many seconds have passed since
 * it was last triggered; reading it disarms it. The node asks the timers
 * how long it may sleep.
 *
 * The clock `platform_get_seconds` is a parameter `now`; seconds are
 * uint32_t, so elapsed time is the distance around the 2^32 circle.
 */
module CcCalvinsysTimer {
  import opened Wrappers
  import opened Machine
  import opened CcToken
  import opened CcCommon
  import opened CcCalvinsys

  const TimerCapability := "sys.timer.once"

  /** The fields of `calvinsys_timer_t`. */
  datatype TimerState = TimerState(timeout: u32, lastTriggered: u32, active: bool)

  /** Seconds since the timer was last triggered, on the 32-bit clock. */
  function Elapsed(t: TimerState, now: u32): (r: nat)
    ensures r < U32 && Add32(t.lastTriggered, r) == now
  {
    Add32Sub32(t.lastTriggered, now);
    Sub32(now, t.lastTriggered)
  }

  /** What `calvinsys_timer_can_read` answers: active, and the timeout has passed. */
  predicate Due(t: TimerState, now: u32)
  {
    t.active && Elapsed(t, now) >= t.timeout as int
  }

  /** Seconds until the timer is due; 0 once it is. */
  function Remaining(t: TimerState, now: u32): (r: u32)
    ensures r as int <= t.timeout as int
  {
    if Elapsed(t, now) >= t.timeout as int then 0 else (t.timeout as int - Elapsed(t, now)) as u32
  }

  /**
   * `timeout - (now - last_triggered)` as `calvinsys_timer_get_next_timeout`
   * computes it in uint32_t: past the deadline the subtraction wraps.
   */
  function WrappedRemaining(t: TimerState, now: u32): (r: u32)
    ensures r as int == (t.timeout as int - Elapsed(t, now)) % U32
  {
    ((t.timeout as int - Elapsed(t, now)) % U32) as u32
  }

  /** An active timer is due exactly when no seconds remain. */
  lemma DueIffNothingRemains(t: TimerState, now: u32)
    requires t.active
    ensures Due(t, now) <==> Remaining(t, now) == 0
  {
  }

  /** An active timer that `Remaining` says is `r` seconds away becomes due after exactly `r` more seconds, as long as the clock does not lap the last trigger. */
  lemma DueAfterRemaining(t: TimerState, now: u32, k: nat)
    requires t.active && Elapsed(t, now) + k < U32
    ensures Due(t, Add32(now, k)) <==> k >= Remaining(t, now) as int
  {
    var e := Elapsed(t, now);
    Add32Assoc(t.lastTriggered, e, k);
    Sub32Add32(t.lastTriggered, e + k);
  }

  /** A timer armed at `start` with timeout `n` is due `k` seconds later exactly when `k >= n`. */
  lemma ArmedDue(n: u32, start: u32, k: nat)
    requires k < U32
    ensures Due(TimerState(n, start, true), Add32(start, k)) <==> k >= n as int
  {
    Sub32Add32(start, k);
  }

  /** The wrapped difference agrees with `Remaining` until the deadline and exceeds every timeout after it. */
  lemma WrappedRemainingAgrees(t: TimerState, now: u32)
    ensures Elapsed(t, now) <= t.timeout as int ==> WrappedRemaining(t, now) == Remaining(t, now)
    ensures Elapsed(t, now) > t.timeout as int ==>
      WrappedRemaining(t, now) as int == U32 - (Elapsed(t, now) - t.timeout as int)
  {
  }

  /** A timer with timeout 5 triggered at second 0 is overdue at second 7, and the wrapped difference asks for a sleep of 4294967294 seconds. */
  lemma OverdueTimerWraps()
    ensures Due(TimerState(5, 0, true), 7)
    ensures WrappedRemaining(TimerState(5, 0, true), 7) == 4294967294
    ensures Remaining(TimerState(5, 0, true), 7) == 0
  {
    assert Elapsed(TimerState(5, 0, true), 7) == 7;
  }

  /** A timer object: the state its `open` allocated. */
  class Timer {
    var timeout: u32
    var lastTriggered: u32
    var active: bool

    function State(): TimerState
      reads this
    {
      TimerState(timeout, lastTriggered, active)
    }

    /**
     * `calvinsys_timer_open`: `timeoutArg` and `lastArg` are what decoding
     * "timeout" and "last_triggered" from the open arguments gives, None
     * when the key is missing. The timer is active iff a positive timeout
     * was given; only then is "last_triggered" read.
     */
    constructor Open(timeoutArg: Option<u32>, lastArg: Option<u32>)
      ensures timeout == (if timeoutArg.Some? then timeoutArg.value else 0)
      ensures active <==> timeoutArg.Some? && timeoutArg.value > 0
      ensures lastTriggered == (if active && lastArg.Some? then lastArg.value else 0)
    {
      timeout := 0;
      lastTriggered := 0;
      active := false;
      if timeoutArg.Some? {
        timeout := timeoutArg.value;
        if timeoutArg.value > 0 {
          active := true;
          if lastArg.Some? {
            lastTriggered := lastArg.value;
          }
        }
      }
    }

    /** `calvinsys_timer_can_read`. */
    method CanRead(now: u32) returns (r: bool)
      ensures r <==> Due(State(), now)
    {
      r := active && Sub32(now, lastTriggered) >= timeout as int;
    }

    /** `calvinsys_timer_read`: disarms the timer and clears the trigger time; the timeout stays. */
    method Read() returns (r: CcResult)
      modifies this
      ensures r == Success
      ensures State() == TimerState(old(timeout), 0, false)
    {
      active := false;
      lastTriggered := 0;
      r := Success;
    }

    /** `calvinsys_timer_can_write`: always. */
    method CanWrite() returns (r: bool)
      ensures r
    {
      r := true;
    }

    /**
     * `calvinsys_timer_write`: an unsigned value arms the timer with that
     * timeout from `now`; true re-arms it from `now` with its timeout;
     * false disarms it; any other value fails and changes nothing.
     */
    method Write(data: Value, now: u32) returns (r: CcResult)
      modifies this
      ensures r == Success <==> data.UInt? || data.Bool?
      ensures data.UInt? ==> State() == TimerState(data.n, now, true)
      ensures data.Bool? && data.b ==> State() == TimerState(old(timeout), now, true)
      ensures data.Bool? && !data.b ==> State() == TimerState(old(timeout), 0, false)
      ensures !(data.UInt? || data.Bool?) ==> State() == old(State())
    {
      match data
      case UInt(n) =>
        lastTriggered := now;
        active := true;
        timeout := n;
        r := Success;
      case Bool(b) =>
        if b {
          lastTriggered := now;
          active := true;
        } else {
          lastTriggered := 0;
          active := false;
        }
        r := Success;
      case _ =>
        r := Fail;
    }
  }

  /**
   * `calvinsys_timer_get_next_timeout` over the timer objects of the
   * "sys.timer.once" handler (`registered` is false when the capability is
   * missing, and `current` is what `*timeout` held). The result is the
   * least number of seconds any active timer still has to wait; it fails
   * when no timer is active. The seconds left are counted with `Remaining`,
   * which stops at 0, where the C code lets an overdue timer wrap.
   */
  method NextTimeout(registered: bool, timers: seq<Timer>, now: u32, current: u32) returns (r: CcResult, timeout: u32)
    ensures !registered ==> r == Fail && timeout == current
    ensures registered ==> (r == Success <==> exists i | 0 <= i < |timers| :: timers[i].active)
    ensures registered && r == Fail ==> timeout == 0
    ensures r == Success ==> exists i | 0 <= i < |timers| :: timers[i].active && timeout == Remaining(timers[i].State(), now)
    ensures r == Success ==> forall i | 0 <= i < |timers| && timers[i].active :: timeout <= Remaining(timers[i].State(), now)
  {
    r, timeout := Fail, current;
    if !registered {
      return;
    }
    timeout := 0;
    var first := true;
    var k := 0;
    while k < |timers|
      invariant 0 <= k <= |timers|
      invariant r == (if first then Fail else Success)
      invariant first <==> forall i | 0 <= i < k :: !timers[i].active
      invariant first ==> timeout == 0
      invariant !first ==> exists i | 0 <= i < k :: timers[i].active && timeout == Remaining(timers[i].State(), now)
      invariant !first ==> forall i | 0 <= i < k && timers[i].active :: timeout <= Remaining(timers[i].State(), now)
    {
      if timers[k].active {
        var diff := Remaining(timers[k].State(), now);
        if first {
          timeout := diff;
          first := false;
        } else if diff < timeout {
          timeout := diff;
        }
        r := Success;
      }
      k := k + 1;
    }
  }

  /** The node sleeps at most until the earliest timer is due: no active timer is due before the returned timeout, and one is due when it ends. */
  lemma NextTimeoutWakesInTime(timers: seq<TimerState>, now: u32, timeout: u32)
    requires exists i | 0 <= i < |timers| :: timers[i].active && timeout == Remaining(timers[i], now)
    requires forall i | 0 <= i < |timers| && timers[i].active :: timeout <= Remaining(timers[i], now)
    requires forall i | 0 <= i < |timers| :: Elapsed(timers[i], now) + timeout as int < U32
    ensures exists i | 0 <= i < |timers| :: Due(timers[i], Add32(now, timeout as int))
    ensures forall i, k | 0 <= i < |timers| && 0 <= k < timeout as int :: !Due(timers[i], Add32(now, k))
  {
    var i :| 0 <= i < |timers| && timers[i].active && timeout == Remaining(timers[i], now);
    DueAfterRemaining(timers[i], now, timeout as int);
    forall j, k | 0 <= j < |timers| && 0 <= k < timeout as int
      ensures !Due(timers[j], Add32(now, k))
    {
      if timers[j].active {
        DueAfterRemaining(timers[j], now, k);
      }
    }
  }

  /** `calvinsys_timer_create`: registers "sys.timer.once" with an `open`. */
  method Create(sys: Calvinsys) returns (r: CcResult)
    modifies sys`capabilities
    ensures Lookup(old(sys.capabilities), TimerCapability).Some? ==> r == Fail && sys.capabilities == old(sys.capabilities)
    ensures Lookup(old(sys.capabilities), TimerCapability).None? ==>
      r == Success && sys.capabilities == old(sys.capabilities) + [Item(TimerCapability, Capability(true), 0, true)]
  {
    r := sys.CreateCapability(TimerCapability, true);
  }
}
