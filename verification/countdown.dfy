/**
 * The countdown of the `useTimer` hook: the remaining seconds, the running flag and the latest
 * `onTimeUp` callback. Each firing of the one-second interval is one call of `Tick`; the
 * interval exists exactly while the timer runs with time left, so a tick in any other state
 * does nothing.
 */
module Countdown {
  import opened Wrappers

  /** The identity of an `onTimeUp` callback. */
  type Handler = nat

  class Timer {
    const initialTime: nat
    var timeRemaining: int
    var isRunning: bool
    /** `onTimeUpRef.current`: the callback most recently supplied to the hook. */
    var onTimeUp: Option<Handler>

    /** The remaining time never leaves `[0, initialTime]`. */
    predicate Valid()
      reads this
    {
      0 <= timeRemaining <= initialTime
    }

    /** An interval is scheduled, so the next second produces a tick. */
    predicate Ticking()
      reads this
    {
      isRunning && timeRemaining > 0
    }

    constructor (initialTime: nat, onTimeUp: Option<Handler>)
      ensures Valid()
      ensures this.initialTime == initialTime && this.onTimeUp == onTimeUp
      ensures timeRemaining == initialTime && !isRunning
    {
      this.initialTime := initialTime;
      this.onTimeUp := onTimeUp;
      timeRemaining := initialTime;
      isRunning := false;
    }

    /** A re-render with a new `onTimeUp` updates the reference the tick reads. */
    method SetOnTimeUp(h: Option<Handler>)
      modifies this
      ensures onTimeUp == h
      ensures timeRemaining == old(timeRemaining) && isRunning == old(isRunning)
    {
      onTimeUp := h;
    }

    /** `startTimer` only raises the running flag, so starting twice is starting once. */
    method Start()
      modifies this
      ensures isRunning
      ensures timeRemaining == old(timeRemaining) && onTimeUp == old(onTimeUp)
    {
      isRunning := true;
    }

    /** `pauseTimer` stops the interval and keeps the remaining time. */
    method Pause()
      modifies this
      ensures !isRunning && !Ticking()
      ensures timeRemaining == old(timeRemaining) && onTimeUp == old(onTimeUp)
    {
      isRunning := false;
    }

    /** `resetTimer` pauses and restores the full time. */
    method Reset()
      modifies this
      ensures Valid()
      ensures !isRunning && timeRemaining == initialTime && onTimeUp == old(onTimeUp)
    {
      Pause();
      timeRemaining := initialTime;
    }

    /** One firing of the interval: the last second stops the timer and invokes the current
        callback; any other second counts down by one. */
    method Tick() returns (expired: bool, fired: Option<Handler>)
      requires Valid()
      modifies this
      ensures Valid() && onTimeUp == old(onTimeUp)
      ensures expired <==> old(Ticking()) && old(timeRemaining) <= 1
      ensures fired == if expired then onTimeUp else None
      ensures !old(Ticking()) ==> timeRemaining == old(timeRemaining) && isRunning == old(isRunning)
      ensures old(Ticking()) && !expired ==> timeRemaining == old(timeRemaining) - 1 && isRunning
      ensures expired ==> timeRemaining == 0 && !isRunning
    {
      if !Ticking() {
        return false, None;
      }
      if timeRemaining <= 1 {
        Pause();
        expired, fired := true, onTimeUp;
        timeRemaining := 0;
      } else {
        expired, fired := false, None;
        timeRemaining := timeRemaining - 1;
      }
    }
  }

  /** A timer started with callback `first`, whose callback is replaced by `latest` right after
      the start, then given `ticks` interval firings: the callback runs exactly once, and it is
      `latest`, when there was time to count down and enough ticks to reach zero. */
  method RunCountdown(initialTime: nat, ticks: nat, first: Handler, latest: Handler)
    returns (calls: seq<Handler>, remaining: int)
    ensures calls == if 0 < initialTime <= ticks then [latest] else []
    ensures remaining == if ticks <= initialTime then initialTime - ticks else 0
  {
    var t := new Timer(initialTime, Some(first));
    t.Start();
    t.SetOnTimeUp(Some(latest));
    calls := [];
    var k := 0;
    while k < ticks
      invariant 0 <= k <= ticks
      invariant t.Valid() && t.initialTime == initialTime && t.onTimeUp == Some(latest)
      invariant t.timeRemaining == if k <= initialTime then initialTime - k else 0
      invariant t.isRunning == (initialTime == 0 || k < initialTime)
      invariant calls == if 0 < initialTime <= k then [latest] else []
    {
      var expired, fired := t.Tick();
      if fired.Some? {
        calls := calls + [fired.value];
      }
      k := k + 1;
    }
    remaining := t.timeRemaining;
  }
}
