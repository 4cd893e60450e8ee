/**
 * The light-mode arbiter of setLightMode (main.cpp:122-146): the averaged
 * dial reading selects ON, AUTO or OFF, but only while the engine is on.
 */
module Arbiter {
  import opened Constants

  datatype LightMode = OnMode | AutoMode | OffMode

  /**
   * The mode after one call, given the engine latch, the current mode and
   * the dial average of this tick. With the engine off the mode is frozen;
   * with it on, the boundaries 0.3 and 0.7 go to ON and OFF respectively and
   * only the open interval between them gives AUTO.
   */
  function Arbitrate(engineOn: bool, mode: LightMode, potAve: real): (m: LightMode)
    ensures !engineOn ==> m == mode
    ensures engineOn ==> (m == OnMode <==> potAve <= LIGHTS_ON)
    ensures engineOn ==> (m == OffMode <==> potAve >= LIGHTS_OFF)
    ensures engineOn ==> (m == AutoMode <==> LIGHTS_ON < potAve < LIGHTS_OFF)
  {
    if engineOn then
      if potAve <= LIGHTS_ON then OnMode
      else if potAve >= LIGHTS_OFF then OffMode
      // the innermost guard always holds here, so the arbiter never falls through
      else if LIGHTS_ON < potAve && potAve < LIGHTS_OFF then AutoMode
      else assert false; mode
    else mode
  }

  /** Where a mode sits along the dial, from fully anticlockwise. */
  function DialOrder(m: LightMode): nat {
    match m
    case OnMode => 0
    case AutoMode => 1
    case OffMode => 2
  }

  /**
   * With the engine on the chosen mode forgets the previous one and is
   * monotone in the dial reading.
   */
  lemma ArbiterMonotone(m1: LightMode, m2: LightMode, p: real, q: real)
    requires p <= q
    ensures DialOrder(Arbitrate(true, m1, p)) <= DialOrder(Arbitrate(true, m2, q))
  {
  }
}
