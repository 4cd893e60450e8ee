# Automatic headlight controller: a verified model of its control loop

The headlight module runs a 10 ms polling loop. One pass of the loop does three things:

- it debounces the ignition button and toggles the engine latch on each clean release while the driver is seated;
- it arbitrates the light mode (ON, AUTO, OFF) from the averaged dial reading;
- it drives the two low beams, directly in ON and OFF, and through two hysteresis counters on the averaged light sensor in AUTO.

The model follows `main.cpp` stage by stage:

- `Constants`: the defines of main.cpp:7-17.
- `Debounce`: the four-state ignition debouncer (`debounceIgnitionUpdate`, `ignitionButtonInit`) as a pure step function. Lemmas cover runs of sampled levels.
- `Averager`: the 100-slot ring buffers of `averageLdrReading` / `averagePotReading`. One method, `RingSample`, does the in-place write, the cursor wrap and the summing loop, proved against the pure `Record` and `Mean`. Lemmas prove that the average converges.
- `Arbiter`: the mode decision of `setLightMode`.
- `Actuation`: the AUTO hysteresis counters `timeToOff` / `timeToOn`, with lemmas over held daylight and held dusk.
- `Headlight`: the abstract controller `State`, the pure specification of each stage and of a whole tick (`Step`), and the class `Controller`. The class holds the program's globals and function statics as fields, and its two sample buffers as arrays. Its methods mirror the C++ functions, and each is proved to follow the pure specification of its stage.
- `HeadlightRuns`: properties over bounded sequences of ticks. They cover the invariant of every reachable state, the engine turning on exactly once for a clean press-and-release, and the dial average settling on a held dial.

Hardware reads are parameters. `Tick` takes an `Inputs` value holding the ignition and driver-seat levels, the dial sample, and three light-sensor samples. In AUTO with the engine on, the C++ calls `averageLdrReading()` three times per pass (main.cpp:162, 165, 173), and each call consumes a fresh sample. The model therefore feeds three samples in that case and none otherwise. The outputs `lowBeamLeft` / `lowBeamRight` are boolean fields, with true meaning ON.

Where a description of the system and the code differ, the model follows the code:

- AUTO switches the beams off on the 201st consecutive daylight tick, not the 200th, because `timeToOff > 2000` needs 2010 ms to have been counted (main.cpp:166-167). Dusk likewise switches them on on the 101st tick.
- The debouncer compares the accumulator with 40 ms before adding the 10 ms period (main.cpp:209-217). A transition therefore commits on the fifth tick after the entry tick. Only two samples decide it: the one that leaves the settled state and the one five ticks later. The four samples in between are never read. So a single pressed sample that recurs five ticks later registers as a press, and a single released sample that recurs five ticks later fires the release event (`Debounce.GlitchPress`, `Debounce.GlitchRelease`). The four-sample window debounces only in the sense that nothing commits before it closes.
- The light sensor is sampled three times per AUTO tick, not once.

## Model

| member | source | states |
|---|---|---|
| Debounce.Settled | main.cpp:97-104 | the state the power-on seeding (and a settling commit) picks for a level is Down exactly when the level is pressed, otherwise Up, and is never a settling state |
| Debounce.Step | main.cpp:196-245 | the release event fires iff the state is Rising, the accumulator has reached 40 and the level is released, and it always lands in Up; Up goes to Falling with accumulator 0 on a pressed level and Down goes to Rising with accumulator 0 on a released one, and otherwise they hold; every Falling/Rising tick adds 10, the committing one included; Up/Down leave it unchanged; a settling state commits only at the threshold, to the state the level sampled on that tick names; the reachable-state invariant (accumulator a multiple of 10 in [0, 50], at most 40 while settling) is preserved |
| Debounce.Run | main.cpp:75-80 | a run over n sampled levels reports exactly n events and keeps the debouncer invariant |
| Debounce.RunPrefix | main.cpp:75-80 | the events of a prefix of the levels are the prefix of the events |
| Debounce.RunAppend | main.cpp:75-80 | ticking through a + b is ticking through a, then through b from where a left off, with the events concatenated |
| Debounce.SettlingHolds | main.cpp:208-218 | while the accumulator has not reached 40, Falling and Rising only accumulate, whatever the levels: no transition completes and no event fires before the fifth tick after entry |
| Debounce.CommitsOnFifthTick | main.cpp:208-238 | from entry into Falling or Rising, the fifth tick commits to Down or Up according to the level sampled on that tick alone, with accumulator 50; the only event is on that tick, when a Rising release commits |
| Debounce.StableHolds | main.cpp:201-206 | a level agreeing with Up or Down changes nothing and fires nothing |
| Debounce.HeldEdge | main.cpp:196-245 | a level held at least six ticks against a settled state commits to the other settled state on the sixth tick, with an event there exactly when the edge is a release |
| Debounce.TwoSamplesDecide | main.cpp:201-238 | over six ticks from a settled state, the first level leaves it, and the sixth level alone picks the settled state committed to with accumulator 50; the only event is on the sixth tick, exactly when both of those levels are released |
| Debounce.GlitchPress | main.cpp:201-218 | from Up, the levels pressed, four released, pressed commit to Down |
| Debounce.GlitchRelease | main.cpp:220-238 | from Down, the levels released, four pressed, released fire the release event on the sixth tick and end in Up |
| Debounce.PressReleaseCycle | main.cpp:196-245 | from Up, a press of at least six ticks followed by a release of at least six yields exactly one release event, on the sixth released tick, and ends Up |
| Averager.Zeroed | main.cpp:51-52 | the power-on ring has all slots 0.0 and cursor 0 |
| Averager.Advance | main.cpp:258-261 | the cursor stays in [0, 100) and advances by one modulo 100 |
| Averager.Record | main.cpp:257-261 | the sample lands at the old cursor, the ring stays well formed, and the cursor advances modulo 100 |
| Averager.RecordAt | main.cpp:257 | only the slot at the old cursor is overwritten; every other slot keeps its sample |
| Averager.Feed | main.cpp:249-289 | recording a run of samples keeps the ring well formed |
| Averager.RingSample | main.cpp:257-268 | the array afterwards is the old contents with the sample at the cursor, the returned cursor is the advanced one, and the result is `Mean` of the new array: its `Sum`, the left-to-right total of the loop at main.cpp:264-266, divided by 100 |
| Averager.MeanBounds | main.cpp:263-268 | slots within [lo, hi] give an average within [lo, hi] |
| Averager.FeedAppend | main.cpp:257-261 | recording a + b is recording a, then b |
| Averager.FeedPlaces | main.cpp:257-261 | up to a full lap, the k-th sample lands k slots after the starting cursor, and the cursor ends |xs| slots on |
| Averager.FullLap | main.cpp:257-261 | a full lap of 100 samples leaves exactly those samples, rotated to the cursor, and brings the cursor back |
| Averager.FullLapMean | main.cpp:278-288 | after a full lap the average is the mean of that lap's samples, whatever the ring held before |
| Averager.LastLapMean | main.cpp:278-288 | after at least 100 samples only the last 100 determine the average |
| Averager.ConstantConverges | main.cpp:278-288 | from any contents and cursor, at least 100 samples of v make the average exactly v |
| Averager.AlternatingConverges | main.cpp:278-288 | at least 100 alternating 0/1 samples make the average exactly 0.5 |
| Arbiter.Arbitrate | main.cpp:127-145 | with the engine off the mode is unchanged; with it on, ON iff avg <= 0.3, OFF iff avg >= 0.7, AUTO iff 0.3 < avg < 0.7 (the inner guard never falls through) |
| Arbiter.ArbiterMonotone | main.cpp:131-143 | with the engine on, the chosen mode ignores the previous one and is monotone in the dial reading |
| Actuation.AutoControl | main.cpp:165-180 | the counter invariant (0 <= timeToOff <= 2000, 0 <= timeToOn <= 1000, multiples of 10) is preserved; in the dead band neither counter moves; the beams change only when a counter fires, both together, to OFF when timeToOff fires and to ON when timeToOn fires; equal beams stay equal |
| Actuation.DaylightCount | main.cpp:165-172 | the daylight block never touches timeToOn |
| Actuation.DuskCount | main.cpp:173-180 | the dusk block never touches timeToOff |
| Actuation.AutoRun | main.cpp:161-181 | a run of AUTO ticks preserves the counter invariant |
| Actuation.DaylightHold | main.cpp:165-172 | held daylight adds 10 to timeToOff per tick with the beams unchanged, until the tick the count passes 2000: there both beams go OFF and timeToOff returns to 0; timeToOn never moves |
| Actuation.DuskHold | main.cpp:173-180 | held dusk adds 10 to timeToOn per tick with the beams unchanged, until the tick the count passes 1000: there both beams go ON and timeToOn returns to 0; timeToOff never moves |
| Actuation.DaylightDelay | main.cpp:165-172 | from timeToOff = 0, the beams are unchanged after 200 daylight ticks (timeToOff = 2000) and OFF after the 201st (timeToOff = 0) |
| Actuation.DuskDelay | main.cpp:173-180 | from timeToOn = 0, the beams are unchanged after 100 dusk ticks (timeToOn = 1000) and ON after the 101st (timeToOn = 0) |
| Headlight.PowerOn | main.cpp:40-104 | the initial state satisfies the invariant, has the engine off, mode OFF, both beams OFF, the debouncer seeded from the ignition level with accumulator 0, both AUTO counters at 0 (the statics of main.cpp:152-153), and both rings zeroed with cursor 0 (the arrays of main.cpp:51-52 and the statics of main.cpp:254 and 275), so the averages start biased toward 0 for the first 99 samples |
| Headlight.EngineLatch | main.cpp:107-119 | the new latch is engineOn XOR (driverSeat AND released), and nothing changes when that conjunction is false |
| Headlight.UpdateIgnition | main.cpp:105-120 | the debouncer takes one step, the latch toggles exactly on a seated release event, and nothing else changes |
| Headlight.SelectMode | main.cpp:122-146 | the dial is recorded into its ring every tick, even with the engine off; with the engine on the mode follows the 0.3 / 0.7 thresholds on the new average; with it off the mode is frozen; nothing else changes |
| Headlight.ControlLights | main.cpp:148-193 | engine off changes nothing; ON and OFF set both beams ON or OFF and touch nothing else; the light-sensor ring receives three samples in AUTO and none otherwise; in AUTO the beams and counters are those of the hysteresis step on the averages after the second and third sample; the invariant, equal beams included, is preserved |
| Headlight.Step | main.cpp:76-78 | one tick keeps the invariant; the latch is updated first, the mode is arbitrated on the updated latch and the newly recorded dial average, ON/OFF then drive the beams, and with the engine off beams, counters and light-sensor ring are untouched; the light-sensor ring receives the three samples when the engine is on in AUTO and none otherwise; in that case beams and counters are the hysteresis step on the averages after the second and third sample; in every other case the counters are untouched |
| Headlight.Controller.ValidState | main.cpp:35-52 | the fields' invariant is the abstract state's invariant |
| Headlight.Controller.constructor | main.cpp:85-104 | the new controller holds the power-on state in fresh arrays |
| Headlight.Controller.DebounceIgnitionUpdate | main.cpp:196-245 | the fields and the returned event are exactly one debouncer step |
| Headlight.Controller.IgnitionUpdate | main.cpp:105-120 | the new state is the ignition stage of the specification |
| Headlight.Controller.AveragePotReading | main.cpp:271-289 | the dial ring is recorded and the result is the mean of the updated array |
| Headlight.Controller.AverageLdrReading | main.cpp:249-269 | the light-sensor ring is recorded and the result is the mean of the updated array |
| Headlight.Controller.SetLightMode | main.cpp:122-146 | the new state is the arbitration stage of the specification |
| Headlight.Controller.LightControl | main.cpp:148-193 | the new state is the actuation stage of the specification |
| Headlight.Controller.AutoLightControl | main.cpp:161-181 | the light-sensor ring receives the three samples, and beams and counters are the hysteresis step on the second and third averages |
| Headlight.Controller.CountDaylight | main.cpp:165-172 | one sample is recorded, and beams and timeToOff follow the daylight block on the new average |
| Headlight.Controller.CountDusk | main.cpp:173-180 | one sample is recorded, and beams and timeToOn follow the dusk block on the new average |
| Headlight.Controller.Tick | main.cpp:75-80 | one pass of the loop body moves the fields to the specified next state and keeps the invariant |
| HeadlightRuns.Run | main.cpp:75-80 | every state reachable by ticks keeps the invariant: counters within their bounds and multiples of 10, accumulator bounded, cursors in range, and the two beams equal |
| HeadlightRuns.DebouncerOfRun | main.cpp:76 | the debouncer in a run of ticks is the debouncer run over the ignition levels alone |
| HeadlightRuns.EngineParity | main.cpp:105-120 | with the driver seated, the latch ends toggled iff an odd number of release events fired |
| HeadlightRuns.CycleEventsOdd | main.cpp:105-120 | in a clean press-and-release the event stream has an odd count in its first k entries iff k >= press + 6 |
| HeadlightRuns.EngineAfter | main.cpp:105-120 | in a clean press-and-release (press >= 6 ticks, release >= 6), the engine is on after the first k ticks iff k >= press + 6 |
| HeadlightRuns.EngineStartsOnce | main.cpp:105-120 | engine off, driver seated, a clean press-and-release turns the engine on exactly once, on the sixth released tick, and it stays on |
| HeadlightRuns.DialOfRun | main.cpp:125 | the dial ring after a run of ticks is the starting ring fed every tick's dial sample |
| HeadlightRuns.ModeTracksDial | main.cpp:125-145 | after any tick with the engine on, the mode is the one the current dial average selects, whatever it was before |
| HeadlightRuns.DialSettles | main.cpp:125-145 | a dial held at v for at least 100 ticks averages to exactly v, and with the engine on the mode is then the one v selects |

## Left out

- The mbed hardware objects (`DigitalIn`, `DigitalOut`, `AnalogIn`) are not modelled. Their readings are `Inputs` fields and their outputs are controller fields.
- The serial debug writes and their `sprintf`/`strlen` formatting (main.cpp:112, 117, 128-141, 162-164) are not modelled. They are output only. The first AUTO light-sensor reading, which is only printed, is still recorded into the ring.
- `delay` and the endless `while (true)` are not modelled. The model has one `Tick` and lemmas over finite tick sequences. Timing is counted in ticks, as the program counts it.
- Pin-mode set-up in `inputsInit` is not modelled. The initial OFF beams of `outputsInit` are.
- Single-precision float rounding is not modelled. Samples, sums and averages are exact reals, and the threshold comparisons are exact.
- The `default` arms of the mode switch and of the debouncer switch (main.cpp:187-190, 240-242) are unreachable. Modes and button states are datatypes with exactly the enumerated values.
- 32-bit `int` overflow is not modelled because it cannot occur. The proved invariants keep the accumulator at most 50 and the counters at most 2010 during a tick.
- There is no wiper controller in this source, so none is modelled.
