/** The tuning constants of the headlight controller (main.cpp:7-17). */
module Constants {
  /** Light-sensor average above which the car is in daylight. */
  const DAYLIGHT: real := 0.6
  /** Light-sensor average below which it is dusk. */
  const DUSK: real := 0.5
  /** Dial average at or below which the beams are forced on. */
  const LIGHTS_ON: real := 0.3
  /** Dial average at or above which the beams are forced off. */
  const LIGHTS_OFF: real := 0.7

  /** Milliseconds of daylight (resp. dusk) the AUTO mode waits before switching. */
  const LIGHT_DELAY_DAY: int := 2000
  const LIGHT_DELAY_DUSK: int := 1000

  /** Slots of each averaging ring buffer. */
  const NUMBER_OF_AVG_SAMPLES: nat := 100
  /** The nominal period of one pass of the control loop, in milliseconds. */
  const TIME_INCREMENT_MS: int := 10
  /** Milliseconds a level must be settled before the ignition debouncer commits. */
  const DEBOUNCE_BUTTON_TIME_MS: int := 40
}
