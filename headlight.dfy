/**
 * One pass of the headlight controller's 10 ms polling loop (main.cpp:71-81):
 * ignition debounce and engine latch, light-mode arbitration from the
 * averaged dial, then beam actuation. The pure functions below specify a
 * tick on an abstract state; the class Controller holds the program's
 * globals and function statics as fields and arrays and is proved to follow
 * them.
 */
module Headlight {
  import opened Constants
  import Debounce
  import opened Averager
  import opened Arbiter
  import opened Actuation

  /** Everything the loop keeps between ticks. */
  datatype State = State(
    debouncer: Debounce.Debouncer,
    engineOn: bool,
    lightMode: LightMode,
    beams: Beams,
    timers: Timers,
    pot: Ring,
    ldr: Ring)

  /** What holds of every state reachable from power-on. */
  predicate Inv(s: State) {
    Debounce.Valid(s.debouncer) && s.pot.Valid() && s.ldr.Valid() &&
    TimersValid(s.timers) && s.beams.left == s.beams.right
  }

  /**
   * The hardware reads of one tick: the ignition button, the driver-seat
   * switch, the dial, and the three light-sensor samples that AUTO mode
   * consumes (main.cpp:162, 165 and 173 each take one).
   */
  datatype Inputs = Inputs(
    ignition: bool,
    driverSeat: bool,
    potentiometer: real,
    ldrLogged: real,
    ldrDaylight: real,
    ldrDusk: real)

  /** The state after the initialisation before the loop. */
  function PowerOn(ignition: bool): (s: State)
    ensures Inv(s)
    ensures !s.engineOn && s.lightMode == OffMode && s.beams == BothOff
    ensures s.debouncer == Debounce.Debouncer(Debounce.Settled(ignition), 0)
    ensures s.timers == Timers(0, 0)
    ensures s.pot == Zeroed() && s.ldr == Zeroed()
  {
    State(Debounce.Debouncer(Debounce.Settled(ignition), 0), false, OffMode,
          BothOff, Timers(0, 0), Zeroed(), Zeroed())
  }

  /**
   * The engine latch of ignitionUpdate: it toggles when the driver is seated
   * and a release event fires, and holds otherwise.
   */
  function EngineLatch(engineOn: bool, driverSeat: bool, released: bool): (r: bool)
    ensures r == (engineOn != (driverSeat && released))
    ensures !(driverSeat && released) ==> r == engineOn
  {
    if !engineOn then
      if driverSeat && released then true else engineOn
    else
      if driverSeat && released then false else engineOn
  }

  /** ignitionUpdate: debounce the ignition level, then drive the latch with its event. */
  function UpdateIgnition(s: State, ignition: bool, driverSeat: bool): (r: State)
    ensures Debounce.Valid(s.debouncer) ==> Debounce.Valid(r.debouncer)
    ensures r.debouncer == Debounce.Step(s.debouncer, ignition).next
    ensures r.engineOn == (s.engineOn != (driverSeat && Debounce.Step(s.debouncer, ignition).released))
    ensures r.(debouncer := s.debouncer, engineOn := s.engineOn) == s
  {
    var o := Debounce.Step(s.debouncer, ignition);
    s.(debouncer := o.next, engineOn := EngineLatch(s.engineOn, driverSeat, o.released))
  }

  /**
   * setLightMode: the dial is sampled into its ring on every tick, and the
   * mode follows the new average only while the engine is on.
   */
  function SelectMode(s: State, potentiometer: real): (r: State)
    requires s.pot.Valid()
    ensures r.pot == Record(s.pot, potentiometer)
    ensures s.engineOn ==> (r.lightMode == OnMode <==> Mean(r.pot.slots) <= LIGHTS_ON)
    ensures s.engineOn ==> (r.lightMode == OffMode <==> Mean(r.pot.slots) >= LIGHTS_OFF)
    ensures !s.engineOn ==> r.lightMode == s.lightMode
    ensures r.(pot := s.pot, lightMode := s.lightMode) == s
  {
    var pot := Record(s.pot, potentiometer);
    s.(pot := pot, lightMode := Arbitrate(s.engineOn, s.lightMode, Mean(pot.slots)))
  }

  /**
   * lightControl: with the engine off nothing happens; ON and OFF drive both
   * beams; AUTO records three light-sensor samples and runs the hysteresis
   * counters on the averages after the second and the third.
   */
  function ControlLights(s: State, ldrLogged: real, ldrDaylight: real, ldrDusk: real): (r: State)
    requires s.ldr.Valid()
    ensures !s.engineOn ==> r == s
    ensures s.engineOn && s.lightMode == OnMode ==> r == s.(beams := BothOn)
    ensures s.engineOn && s.lightMode == OffMode ==> r == s.(beams := BothOff)
    // three light-sensor samples in AUTO, none otherwise
    ensures r.ldr == if s.engineOn && s.lightMode == AutoMode
                     then Feed(s.ldr, [ldrLogged, ldrDaylight, ldrDusk]) else s.ldr
    ensures s.engineOn && s.lightMode == AutoMode ==>
      Actuated(r.beams, r.timers) ==
        AutoControl(s.beams, s.timers,
                    Mean(Feed(s.ldr, [ldrLogged, ldrDaylight]).slots),
                    Mean(Feed(s.ldr, [ldrLogged, ldrDaylight, ldrDusk]).slots))
    ensures r.(beams := s.beams, timers := s.timers, ldr := s.ldr) == s
    ensures Inv(s) ==> Inv(r)
  {
    if !s.engineOn then s
    else
      match s.lightMode
      case OnMode => s.(beams := BothOn)
      case OffMode => s.(beams := BothOff)
      case AutoMode =>
        var logged := Record(s.ldr, ldrLogged);
        var day := Record(logged, ldrDaylight);
        var dusk := Record(day, ldrDusk);
        FeedThree(s.ldr, ldrLogged, ldrDaylight, ldrDusk);
        var a := AutoControl(s.beams, s.timers, Mean(day.slots), Mean(dusk.slots));
        s.(beams := a.beams, timers := a.timers, ldr := dusk)
  }

  /** Feeding two or three samples is recording them one after another. */
  lemma FeedThree(r: Ring, x: real, y: real, z: real)
    requires r.Valid()
    ensures Feed(r, [x, y]) == Record(Record(r, x), y)
    ensures Feed(r, [x, y, z]) == Record(Record(Record(r, x), y), z)
  {
    assert Feed(r, [x]) == Record(r, x) by {
      assert [x][..0] == [];
    }
    assert Feed(r, [x, y]) == Record(Feed(r, [x]), y) by {
      assert [x, y][..1] == [x];
    }
    assert Feed(r, [x, y, z]) == Record(Feed(r, [x, y]), z) by {
      assert [x, y, z][..2] == [x, y];
    }
  }

  /**
   * One tick of the loop, in the order main.cpp:76-78 calls the stages: the
   * latch first, arbitration with the updated latch, then actuation with
   * the updated mode.
   */
  function Step(s: State, inp: Inputs): (r: State)
    requires Inv(s)
    ensures Inv(r)
    ensures r.debouncer == Debounce.Step(s.debouncer, inp.ignition).next
    ensures r.engineOn == (s.engineOn != (inp.driverSeat && Debounce.Step(s.debouncer, inp.ignition).released))
    ensures r.pot == Record(s.pot, inp.potentiometer)
    ensures r.lightMode == Arbitrate(r.engineOn, s.lightMode, Mean(r.pot.slots))
    ensures r.engineOn && r.lightMode == OnMode ==> r.beams == BothOn
    ensures r.engineOn && r.lightMode == OffMode ==> r.beams == BothOff
    ensures !r.engineOn ==> r.beams == s.beams && r.timers == s.timers && r.ldr == s.ldr
    // three light-sensor samples in AUTO, none otherwise
    ensures r.ldr == if r.engineOn && r.lightMode == AutoMode
                     then Feed(s.ldr, [inp.ldrLogged, inp.ldrDaylight, inp.ldrDusk]) else s.ldr
    ensures r.engineOn && r.lightMode == AutoMode ==>
      Actuated(r.beams, r.timers) ==
        AutoControl(s.beams, s.timers,
                    Mean(Feed(s.ldr, [inp.ldrLogged, inp.ldrDaylight]).slots), Mean(r.ldr.slots))
    ensures !(r.engineOn && r.lightMode == AutoMode) ==> r.timers == s.timers
  {
    var ignited := UpdateIgnition(s, inp.ignition, inp.driverSeat);
    var moded := SelectMode(ignited, inp.potentiometer);
    ControlLights(moded, inp.ldrLogged, inp.ldrDaylight, inp.ldrDusk)
  }

  /**
   * The controller's globals, with the function statics of lightControl,
   * averageLdrReading and averagePotReading as fields. Outputs are the
   * lowBeamLeft / lowBeamRight fields (true is ON).
   */
  class Controller {
    var ignitionState: Debounce.ButtonState
    var accumulatedDebounceButtonTime: int
    var engineOn: bool
    var lightMode: LightMode
    var lowBeamLeft: bool
    var lowBeamRight: bool
    var timeToOff: int
    var timeToOn: int
    const potReadingsArray: array<real>
    var potSampleIndex: int
    const ldrSensorReadingsArray: array<real>
    var ldrSampleIndex: int

    /** The abstract state these fields hold. */
    ghost function Snapshot(): State
      reads this, potReadingsArray, ldrSensorReadingsArray
    {
      State(Debounce.Debouncer(ignitionState, accumulatedDebounceButtonTime),
            engineOn, lightMode, Beams(lowBeamLeft, lowBeamRight),
            Timers(timeToOff, timeToOn),
            PotRing(), LdrRing())
    }

    ghost function PotRing(): Ring
      reads this, potReadingsArray
    {
      Ring(potReadingsArray[..], potSampleIndex)
    }

    ghost function LdrRing(): Ring
      reads this, ldrSensorReadingsArray
    {
      Ring(ldrSensorReadingsArray[..], ldrSampleIndex)
    }

    ghost predicate Valid()
      reads this, potReadingsArray, ldrSensorReadingsArray
    {
      potReadingsArray != ldrSensorReadingsArray && PotValid() && LdrValid() &&
      Debounce.Valid(Debounce.Debouncer(ignitionState, accumulatedDebounceButtonTime)) &&
      TimersValid(Timers(timeToOff, timeToOn)) && lowBeamLeft == lowBeamRight
    }

    /** The dial ring: 100 slots and a cursor inside them. */
    ghost predicate PotValid()
      reads this
    {
      potReadingsArray.Length == NUMBER_OF_AVG_SAMPLES && 0 <= potSampleIndex < NUMBER_OF_AVG_SAMPLES
    }

    /** The light-sensor ring: 100 slots and a cursor inside them. */
    ghost predicate LdrValid()
      reads this
    {
      ldrSensorReadingsArray.Length == NUMBER_OF_AVG_SAMPLES && 0 <= ldrSampleIndex < NUMBER_OF_AVG_SAMPLES
    }

    /** The fields' invariant is the abstract state's. */
    lemma ValidState()
      requires Valid()
      ensures Inv(Snapshot())
    {
    }

    /** Power-on: outputsInit, ignitionButtonInit and the static initialisers. */
    constructor (ignition: bool)
      ensures Valid() && Snapshot() == PowerOn(ignition)
      ensures fresh(potReadingsArray) && fresh(ldrSensorReadingsArray)
    {
      engineOn := false;
      lightMode := OffMode;
      accumulatedDebounceButtonTime := 0;
      potReadingsArray := new real[NUMBER_OF_AVG_SAMPLES](_ => 0.0);
      ldrSensorReadingsArray := new real[NUMBER_OF_AVG_SAMPLES](_ => 0.0);
      potSampleIndex := 0;
      ldrSampleIndex := 0;
      timeToOff := 0;
      timeToOn := 0;
      lowBeamLeft := false;
      lowBeamRight := false;
      if ignition {
        ignitionState := Debounce.ButtonDown;
      } else {
        ignitionState := Debounce.ButtonUp;
      }
      new;
      assert potReadingsArray[..] == Zeroed().slots;
      assert ldrSensorReadingsArray[..] == Zeroed().slots;
    }

    /** debounceIgnitionUpdate: one step of the debouncer, returning the release event. */
    method DebounceIgnitionUpdate(ignition: bool) returns (ignitionReleasedEvent: bool)
      requires Valid()
      modifies this`ignitionState, this`accumulatedDebounceButtonTime
      ensures Valid()
      ensures Debounce.Step(Debounce.Debouncer(old(ignitionState), old(accumulatedDebounceButtonTime)), ignition)
           == Debounce.Outcome(Debounce.Debouncer(ignitionState, accumulatedDebounceButtonTime), ignitionReleasedEvent)
    {
      ignitionReleasedEvent := false;
      match ignitionState {
        case ButtonUp =>
          if ignition {
            ignitionState := Debounce.ButtonFalling;
            accumulatedDebounceButtonTime := 0;
          }
        case ButtonFalling =>
          if accumulatedDebounceButtonTime >= DEBOUNCE_BUTTON_TIME_MS {
            if ignition {
              ignitionState := Debounce.ButtonDown;
            } else {
              ignitionState := Debounce.ButtonUp;
            }
          }
          accumulatedDebounceButtonTime := accumulatedDebounceButtonTime + TIME_INCREMENT_MS;
        case ButtonDown =>
          if !ignition {
            ignitionState := Debounce.ButtonRising;
            accumulatedDebounceButtonTime := 0;
          }
        case ButtonRising =>
          if accumulatedDebounceButtonTime >= DEBOUNCE_BUTTON_TIME_MS {
            if !ignition {
              ignitionState := Debounce.ButtonUp;
              ignitionReleasedEvent := true;
            } else {
              ignitionState := Debounce.ButtonDown;
            }
          }
          accumulatedDebounceButtonTime := accumulatedDebounceButtonTime + TIME_INCREMENT_MS;
      }
    }

    /** ignitionUpdate. */
    method IgnitionUpdate(ignition: bool, driverSeat: bool)
      requires Valid()
      modifies this`ignitionState, this`accumulatedDebounceButtonTime, this`engineOn
      ensures Valid()
      ensures Snapshot() == UpdateIgnition(old(Snapshot()), ignition, driverSeat)
    {
      var ignitionReleasedEvent := DebounceIgnitionUpdate(ignition);
      if !engineOn {
        if driverSeat && ignitionReleasedEvent {
          engineOn := true;
        }
      } else {
        if driverSeat && ignitionReleasedEvent {
          engineOn := false;
        }
      }
    }

    /** averagePotReading: record a dial sample and return the new average. */
    method AveragePotReading(sample: real) returns (potAverage: real)
      requires PotValid()
      modifies potReadingsArray, this`potSampleIndex
      ensures PotValid()
      ensures PotRing() == Record(old(PotRing()), sample)
      ensures potAverage == Mean(potReadingsArray[..])
    {
      potSampleIndex, potAverage := RingSample(potReadingsArray, potSampleIndex, sample);
    }

    /** averageLdrReading: record a light-sensor sample and return the new average. */
    method AverageLdrReading(sample: real) returns (ldrSensorAverage: real)
      requires LdrValid()
      modifies ldrSensorReadingsArray, this`ldrSampleIndex
      ensures LdrValid()
      ensures LdrRing() == Record(old(LdrRing()), sample)
      ensures ldrSensorAverage == Mean(ldrSensorReadingsArray[..])
    {
      ldrSampleIndex, ldrSensorAverage := RingSample(ldrSensorReadingsArray, ldrSampleIndex, sample);
    }

    /** setLightMode. */
    method SetLightMode(potentiometer: real)
      requires Valid()
      modifies potReadingsArray, this`potSampleIndex, this`lightMode
      ensures Valid()
      ensures Snapshot() == SelectMode(old(Snapshot()), potentiometer)
    {
      var potAve := AveragePotReading(potentiometer);
      if engineOn {
        if potAve <= LIGHTS_ON {
          lightMode := OnMode;
        } else {
          if potAve >= LIGHTS_OFF {
            lightMode := OffMode;
          } else {
            if LIGHTS_ON < potAve && potAve < LIGHTS_OFF {
              lightMode := AutoMode;
            }
          }
        }
      }
    }

    /** lightControl. */
    method LightControl(ldrLogged: real, ldrDaylight: real, ldrDusk: real)
      requires Valid()
      modifies ldrSensorReadingsArray, this`ldrSampleIndex, this`lowBeamLeft, this`lowBeamRight,
               this`timeToOff, this`timeToOn
      ensures Valid()
      ensures Snapshot() == ControlLights(old(Snapshot()), ldrLogged, ldrDaylight, ldrDusk)
    {
      if engineOn {
        match lightMode {
          case OnMode =>
            lowBeamLeft := true;
            lowBeamRight := true;
          case AutoMode =>
            AutoLightControl(ldrLogged, ldrDaylight, ldrDusk);
          case OffMode =>
            lowBeamLeft := false;
            lowBeamRight := false;
        }
      }
    }

    /**
     * The AUTO arm of lightControl: a light-sensor reading that is only
     * logged, then the daylight block and the dusk block, each on a reading
     * of its own.
     */
    method AutoLightControl(ldrLogged: real, ldrDaylight: real, ldrDusk: real)
      requires Valid()
      modifies ldrSensorReadingsArray, this`ldrSampleIndex, this`lowBeamLeft, this`lowBeamRight,
               this`timeToOff, this`timeToOn
      ensures Valid()
      ensures var day := Record(Record(old(LdrRing()), ldrLogged), ldrDaylight);
        var a := AutoControl(old(Beams(lowBeamLeft, lowBeamRight)), old(Timers(timeToOff, timeToOn)),
                             Mean(day.slots), Mean(Record(day, ldrDusk).slots));
        LdrRing() == Record(day, ldrDusk) &&
        Beams(lowBeamLeft, lowBeamRight) == a.beams && Timers(timeToOff, timeToOn) == a.timers
    {
      // the first average is only written to the debug port
      var logged := AverageLdrReading(ldrLogged);
      CountDaylight(ldrDaylight);
      CountDusk(ldrDusk);
    }

    /** The daylight block of the AUTO arm (main.cpp:165-172). */
    method CountDaylight(ldrDaylight: real)
      requires Valid()
      modifies ldrSensorReadingsArray, this`ldrSampleIndex, this`lowBeamLeft, this`lowBeamRight, this`timeToOff
      ensures Valid()
      ensures LdrRing() == Record(old(LdrRing()), ldrDaylight)
      ensures Actuated(Beams(lowBeamLeft, lowBeamRight), Timers(timeToOff, timeToOn)) ==
        DaylightCount(old(Beams(lowBeamLeft, lowBeamRight)), old(Timers(timeToOff, timeToOn)), Mean(LdrRing().slots))
    {
      var dayAve := AverageLdrReading(ldrDaylight);
      if dayAve > DAYLIGHT {
        timeToOff := timeToOff + TIME_INCREMENT_MS;
        if timeToOff > LIGHT_DELAY_DAY {
          lowBeamLeft := false;
          lowBeamRight := false;
          timeToOff := 0;
        }
      }
    }

    /** The dusk block of the AUTO arm (main.cpp:173-180). */
    method CountDusk(ldrDusk: real)
      requires Valid()
      modifies ldrSensorReadingsArray, this`ldrSampleIndex, this`lowBeamLeft, this`lowBeamRight, this`timeToOn
      ensures Valid()
      ensures LdrRing() == Record(old(LdrRing()), ldrDusk)
      ensures Actuated(Beams(lowBeamLeft, lowBeamRight), Timers(timeToOff, timeToOn)) ==
        DuskCount(old(Beams(lowBeamLeft, lowBeamRight)), old(Timers(timeToOff, timeToOn)), Mean(LdrRing().slots))
    {
      var duskAve := AverageLdrReading(ldrDusk);
      if duskAve < DUSK {
        timeToOn := timeToOn + TIME_INCREMENT_MS;
        if timeToOn > LIGHT_DELAY_DUSK {
          lowBeamLeft := true;
          lowBeamRight := true;
          timeToOn := 0;
        }
      }
    }

    /** One pass of the loop body of main. */
    method Tick(inp: Inputs)
      requires Valid()
      modifies this, potReadingsArray, ldrSensorReadingsArray
      ensures Valid()
      ensures Snapshot() == Step(old(Snapshot()), inp)
    {
      IgnitionUpdate(inp.ignition, inp.driverSeat);
      SetLightMode(inp.potentiometer);
      LightControl(inp.ldrLogged, inp.ldrDaylight, inp.ldrDusk);
    }
  }
}
