/**
 * The interval timer of a 6530 RIOT as main.c emulates it: a prescaler (`mult` and
 * `tick_accum`) in front of a count that runs down by the host's tick count and reloads
 * from `start_value`. `count` is a signed 32-bit field compared against the unsigned tick
 * count, so C converts it to unsigned for the comparison; it is kept here as its 32-bit
 * pattern, and every subtraction wraps modulo 2^32 as the C arithmetic does.
 */
module RiotTimer {
  import opened Bits

  /** A `uint32_t` value; arithmetic on it goes through Wrap. */
  type u32 = x: int | 0 <= x < 0x1_0000_0000

  /** The `uint32_t` result of an arithmetic value: reduction modulo 2^32. */
  function Wrap(x: int): u32
  {
    x % 0x1_0000_0000
  }

  datatype TimerState = TimerState(
    mult: u32,
    tickAccum: u32,
    startValue: u32,
    /** The bit pattern of the `int32_t` count. */
    count: u32,
    timeout: u32)

  /** The timer counts: it has a prescale and has not timed out. */
  predicate Running(t: TimerState)
  {
    t.mult != 0 && t.timeout == 0
  }

  /** The prescaler position stays below the prescale while one is set. */
  predicate PrescalerBelowScale(t: TimerState)
  {
    t.mult == 0 || t.tickAccum < t.mult
  }

  /** init_timer: the timer stops; the other fields keep what they held. */
  function Initialised(t: TimerState): (r: TimerState)
    ensures !Running(r)
    ensures PrescalerBelowScale(r)
    ensures r.tickAccum == t.tickAccum && r.startValue == t.startValue && r.count == t.count
  {
    t.(mult := 0, timeout := 0)
  }

  /** reset_timer: prescale `scale`, start value and count `start`, prescaler and timeout cleared. */
  function Restarted(scale: u32, start: u8): (r: TimerState)
    ensures Running(r) <==> scale != 0
    ensures PrescalerBelowScale(r)
    ensures r.count == r.startValue == start
  {
    TimerState(scale, 0, start, start, 0)
  }

  /** update_timer: `ticks` host ticks have passed. */
  function Updated(t: TimerState, ticks: u32): (r: TimerState)
    ensures !Running(t) ==> r == t
    ensures r.mult == t.mult && r.startValue == t.startValue
  {
    if t.mult == 0 || t.timeout != 0 then t
    else if ticks >= t.count then
      var accum := Wrap(t.tickAccum + 1);
      if accum >= t.mult then
        t.(timeout := 1, tickAccum := 0, count := Wrap(t.startValue - Wrap(ticks - t.count)))
      else
        t.(tickAccum := accum, count := Wrap(t.startValue - Wrap(ticks - t.count)))
    else
      t.(count := Wrap(t.count - ticks))
  }

  /** A sequence of updates, oldest first. */
  function UpdatedAll(t: TimerState, ticks: seq<u32>): TimerState
    decreases |ticks|
  {
    if |ticks| == 0 then t else UpdatedAll(Updated(t, ticks[0]), ticks[1..])
  }

  /** Fewer ticks than the count: the count goes down by `ticks` and nothing else moves. */
  lemma UpdateCountsDown(t: TimerState, ticks: u32)
    requires Running(t) && ticks < t.count
    ensures Updated(t, ticks) == t.(count := t.count - ticks)
    ensures Running(Updated(t, ticks))
  {
  }

  /**
   * At least as many ticks as the count: the count reloads from the start value less the
   * overshoot, and the prescaler advances by one, wrapping to zero when it reaches the prescale.
   */
  lemma UpdateReloads(t: TimerState, ticks: u32)
    requires Running(t) && ticks >= t.count
    ensures Updated(t, ticks).count == Wrap(t.startValue - (ticks - t.count))
    ensures Updated(t, ticks).tickAccum == if t.tickAccum + 1 >= t.mult then 0 else t.tickAccum + 1
  {
  }

  /** An update sets the timeout exactly when a reload happens with the prescaler at its last step. */
  lemma UpdateTimesOut(t: TimerState, ticks: u32)
    requires Running(t)
    ensures Updated(t, ticks).timeout != 0 <==> ticks >= t.count && Wrap(t.tickAccum + 1) >= t.mult
    ensures Updated(t, ticks).timeout != 0 ==> Updated(t, ticks).timeout == 1
  {
  }

  /** A reload whose overshoot does not exceed the start value lands on or below the start value. */
  lemma ReloadStaysBelowStart(t: TimerState, ticks: u32)
    requires Running(t) && ticks >= t.count && ticks - t.count <= t.startValue
    ensures Updated(t, ticks).count <= t.startValue
  {
  }

  /** The prescaler stays below the prescale across every update. */
  lemma UpdatePreservesPrescaler(t: TimerState, ticks: u32)
    requires PrescalerBelowScale(t)
    ensures PrescalerBelowScale(Updated(t, ticks))
  {
  }

  /** Once timed out, the timer ignores every later update. */
  lemma {:induction false} TimeoutHolds(t: TimerState, ticks: seq<u32>)
    requires t.timeout != 0
    ensures UpdatedAll(t, ticks) == t
    decreases |ticks|
  {
    if |ticks| != 0 {
      TimeoutHolds(Updated(t, ticks[0]), ticks[1..]);
    }
  }

  /** A stopped timer (no prescale) ignores every later update. */
  lemma {:induction false} StoppedHolds(t: TimerState, ticks: seq<u32>)
    requires t.mult == 0
    ensures UpdatedAll(t, ticks) == t
    decreases |ticks|
  {
    if |ticks| != 0 {
      StoppedHolds(Updated(t, ticks[0]), ticks[1..]);
    }
  }

  /**
   * The comparison is unsigned. An overshoot larger than the start value leaves a count whose
   * `int32_t` value is negative (here -85); as an unsigned number it is huge, so the next
   * update only subtracts from it and no reload happens.
   */
  lemma NegativeCountIsLarge()
    ensures Updated(TimerState(8, 0, 10, 5, 0), 100) == TimerState(8, 1, 10, 0xFFFF_FFAB, 0)
    ensures Updated(TimerState(8, 1, 10, 0xFFFF_FFAB, 0), 100) == TimerState(8, 1, 10, 0xFFFF_FF47, 0)
  {
  }

  /** One TIMER record, updated in place. */
  class Timer {
    var mult: u32
    var tickAccum: u32
    var startValue: u32
    var count: u32
    var timeout: u32

    /** The record's current fields. */
    function Snapshot(): TimerState
      reads this
    {
      TimerState(mult, tickAccum, startValue, count, timeout)
    }

    /** Static storage starts zeroed. */
    constructor ()
      ensures Snapshot() == TimerState(0, 0, 0, 0, 0)
    {
      mult, tickAccum, startValue, count, timeout := 0, 0, 0, 0, 0;
    }

    /** init_timer */
    method Init()
      modifies this
      ensures Snapshot() == Initialised(old(Snapshot()))
    {
      mult := 0;
      timeout := 0;
    }

    /** reset_timer */
    method Reset(scale: u32, start: u8)
      modifies this
      ensures Snapshot() == Restarted(scale, start)
    {
      mult := scale;
      tickAccum := 0;
      timeout := 0;
      startValue := start;
      count := start;
    }

    /** update_timer */
    method Update(ticks: u32)
      modifies this
      ensures Snapshot() == Updated(old(Snapshot()), ticks)
    {
      if mult == 0 || timeout != 0 {
        return;
      }
      if ticks >= count {
        tickAccum := Wrap(tickAccum + 1);
        if tickAccum >= mult {
          timeout := 1;
          tickAccum := 0;
          count := Wrap(startValue - Wrap(ticks - count));
        } else {
          count := Wrap(startValue - Wrap(ticks - count));
        }
      } else {
        count := Wrap(count - ticks);
      }
    }
  }
}
