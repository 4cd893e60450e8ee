/**
 * The AUTO arm of lightControl (main.cpp:161-181): two hysteresis counters
 * advanced by one loop period per qualifying tick, each switching both beams
 * once it passes its delay and then starting over.
 */
module Actuation {
  import opened Constants

  /** The two low-beam outputs; true is ON. */
  datatype Beams = Beams(left: bool, right: bool)

  const BothOn := Beams(true, true)
  const BothOff := Beams(false, false)

  /** The function-static counters timeToOff and timeToOn, in milliseconds. */
  datatype Timers = Timers(timeToOff: int, timeToOn: int)

  /** Each counter is a multiple of the period and never above its delay between ticks. */
  predicate TimersValid(t: Timers) {
    0 <= t.timeToOff <= LIGHT_DELAY_DAY && t.timeToOff % TIME_INCREMENT_MS == 0 &&
    0 <= t.timeToOn <= LIGHT_DELAY_DUSK && t.timeToOn % TIME_INCREMENT_MS == 0
  }

  datatype Actuated = Actuated(beams: Beams, timers: Timers)

  /**
   * One AUTO tick. `dayAve` and `duskAve` are the light-sensor averages
   * returned by the second and third averaging calls of the tick.
   */
  function AutoControl(b: Beams, t: Timers, dayAve: real, duskAve: real): (r: Actuated)
    ensures TimersValid(t) ==> TimersValid(r.timers)
    // in the dead band between DUSK and DAYLIGHT neither counter moves
    ensures dayAve <= DAYLIGHT ==> r.timers.timeToOff == t.timeToOff
    ensures duskAve >= DUSK ==> r.timers.timeToOn == t.timeToOn
    // the beams only move when a counter fires, and then both together
    ensures r.beams == b || (r.beams == BothOff && dayAve > DAYLIGHT && r.timers.timeToOff == 0)
                         || (r.beams == BothOn && duskAve < DUSK && r.timers.timeToOn == 0)
    ensures b.left == b.right ==> r.beams.left == r.beams.right
  {
    var afterDay := DaylightCount(b, t, dayAve);
    DuskCount(afterDay.beams, afterDay.timers, duskAve)
  }

  /** The daylight half of an AUTO tick (main.cpp:165-172). */
  function DaylightCount(b: Beams, t: Timers, dayAve: real): (r: Actuated)
    ensures r.timers.timeToOn == t.timeToOn
  {
    if dayAve > DAYLIGHT then
      var off := t.timeToOff + TIME_INCREMENT_MS;
      if off > LIGHT_DELAY_DAY then Actuated(BothOff, t.(timeToOff := 0))
      else Actuated(b, t.(timeToOff := off))
    else Actuated(b, t)
  }

  /** The dusk half of an AUTO tick (main.cpp:173-180). */
  function DuskCount(b: Beams, t: Timers, duskAve: real): (r: Actuated)
    ensures r.timers.timeToOff == t.timeToOff
  {
    if duskAve < DUSK then
      var on := t.timeToOn + TIME_INCREMENT_MS;
      if on > LIGHT_DELAY_DUSK then Actuated(BothOn, t.(timeToOn := 0))
      else Actuated(b, t.(timeToOn := on))
    else Actuated(b, t)
  }

  /** A run of AUTO ticks over (daylight, dusk) average pairs, oldest first. */
  function AutoRun(b: Beams, t: Timers, aves: seq<(real, real)>): (r: Actuated)
    ensures TimersValid(t) ==> TimersValid(r.timers)
    decreases |aves|
  {
    if aves == [] then Actuated(b, t)
    else
      var r := AutoRun(b, t, aves[..|aves| - 1]);
      var (day, dusk) := aves[|aves| - 1];
      AutoControl(r.beams, r.timers, day, dusk)
  }

  /** Every tick is above the daylight threshold and not below dusk. */
  predicate Daylight(aves: seq<(real, real)>) {
    forall k :: 0 <= k < |aves| ==> aves[k].0 > DAYLIGHT && aves[k].1 >= DUSK
  }

  /** Every tick is below dusk and not above the daylight threshold. */
  predicate Dusk(aves: seq<(real, real)>) {
    forall k :: 0 <= k < |aves| ==> aves[k].0 <= DAYLIGHT && aves[k].1 < DUSK
  }

  /**
   * Held daylight: up to and including the tick on which it fires, timeToOff
   * counts one period per tick and the beams keep their value; on the tick
   * the count passes the delay both beams go off and timeToOff is cleared.
   * timeToOn does not move.
   */
  lemma {:induction false} DaylightHold(b: Beams, t: Timers, aves: seq<(real, real)>)
    requires TimersValid(t) && Daylight(aves)
    requires t.timeToOff + TIME_INCREMENT_MS * |aves| <= LIGHT_DELAY_DAY + TIME_INCREMENT_MS
    ensures var count := t.timeToOff + TIME_INCREMENT_MS * |aves|;
      AutoRun(b, t, aves) ==
        if count > LIGHT_DELAY_DAY then Actuated(BothOff, Timers(0, t.timeToOn))
        else Actuated(b, Timers(count, t.timeToOn))
    decreases |aves|
  {
    if aves != [] {
      var n := |aves| - 1;
      assert Daylight(aves[..n]) by {
        forall k | 0 <= k < n ensures aves[..n][k] == aves[k] { }
      }
      DaylightHold(b, t, aves[..n]);
    }
  }

  /**
   * Held dusk: up to and including the tick on which it fires, timeToOn
   * counts one period per tick and the beams keep their value; on the tick
   * the count passes the delay both beams go on and timeToOn is cleared.
   * timeToOff does not move.
   */
  lemma {:induction false} DuskHold(b: Beams, t: Timers, aves: seq<(real, real)>)
    requires TimersValid(t) && Dusk(aves)
    requires t.timeToOn + TIME_INCREMENT_MS * |aves| <= LIGHT_DELAY_DUSK + TIME_INCREMENT_MS
    ensures var count := t.timeToOn + TIME_INCREMENT_MS * |aves|;
      AutoRun(b, t, aves) ==
        if count > LIGHT_DELAY_DUSK then Actuated(BothOn, Timers(t.timeToOff, 0))
        else Actuated(b, Timers(t.timeToOff, count))
    decreases |aves|
  {
    if aves != [] {
      var n := |aves| - 1;
      assert Dusk(aves[..n]) by {
        forall k | 0 <= k < n ensures aves[..n][k] == aves[k] { }
      }
      DuskHold(b, t, aves[..n]);
    }
  }

  /**
   * From a cleared timeToOff, daylight switches the beams off on the 201st
   * qualifying tick (after more than 2000 ms have been counted), not before.
   */
  lemma DaylightDelay(b: Beams, on: int, aves: seq<(real, real)>)
    requires TimersValid(Timers(0, on)) && Daylight(aves) && |aves| == 201
    ensures AutoRun(b, Timers(0, on), aves[..200]) == Actuated(b, Timers(LIGHT_DELAY_DAY, on))
    ensures AutoRun(b, Timers(0, on), aves) == Actuated(BothOff, Timers(0, on))
  {
    assert Daylight(aves[..200]) by {
      forall k | 0 <= k < 200 ensures aves[..200][k] == aves[k] { }
    }
    DaylightHold(b, Timers(0, on), aves[..200]);
    DaylightHold(b, Timers(0, on), aves);
  }

  /**
   * From a cleared timeToOn, dusk switches the beams on on the 101st
   * qualifying tick (after more than 1000 ms have been counted), not before.
   */
  lemma DuskDelay(b: Beams, off: int, aves: seq<(real, real)>)
    requires TimersValid(Timers(off, 0)) && Dusk(aves) && |aves| == 101
    ensures AutoRun(b, Timers(off, 0), aves[..100]) == Actuated(b, Timers(off, LIGHT_DELAY_DUSK))
    ensures AutoRun(b, Timers(off, 0), aves) == Actuated(BothOn, Timers(off, 0))
  {
    assert Dusk(aves[..100]) by {
      forall k | 0 <= k < 100 ensures aves[..100][k] == aves[k] { }
    }
    DuskHold(b, Timers(off, 0), aves[..100]);
    DuskHold(b, Timers(off, 0), aves);
  }
}
