# Sun-tracking actuator controller: a Dafny model

This project models the firmware of a stepper-driven mirror/shade, focusing on its compressed-time
daily-cycle controller (`loop()` in `Prototype1/src/main.cpp`). One simulated day lasts 144000 real
milliseconds. During the day, the controller advances the actuator by `stepsPerMove` steps at most
once every 1500 ms. It only moves while the simulated minute lies inside the current month's
daylight window `[sunrise, sunset)`, and only while one more move stays within `maxTotalSteps`.
Once more than 144000 ms have passed, it drives the actuator back home, switches the coils off and
starts a new simulated day.

Modules:

- `Daylight` (daylight.dfy): the twelve sunrise/sunset pairs and the lookup by month.
- `StepConfig` (step_config.dfy): the travel constants, evaluated with a 32-bit `int`
  (`maxTotalSteps == 1024`, `stepsPerMove == 10`, last reachable position 1020).
- `TimeMapping` (time_mapping.dfy): the end-of-day test and elapsed milliseconds to simulated minute.
- `CycleModel` (cycle_model.dfy): the controller's state between ticks as a value, and one tick as
  the pure function `Next`. The reset, move and idle properties are proved about `Next`.
- `DailyTravel` (daily_travel.dfy): a ghost log of the day's moves. It proves that the daylight
  window and the rate limit allow at most 60 moves per simulated day (600 steps). As a result, the
  `stepsMoved + stepsPerMove <= maxTotalSteps` guard never stops a move, and the actuator never
  gets past 600 of its 1024 steps.
- `CycleRuns` (cycle_runs.dfy): sequences of ticks. These lemmas cover the invariant in every
  reachable state, monotone travel within a day and the per-day move bound.
- `CycleController` (cycle_controller.dfy): the firmware's globals as the fields of class
  `Controller`, plus the stepper position and a coils-on flag. `Setup` stands for `setup()`,
  `Tick` for one pass of `loop()`, `DriveTo` for `moveTo` plus the busy `run()` loop, and
  `DisableCoils` for `disableCoils()`. `Tick` is proved to produce exactly `Next` of the old state.

Clock readings are parameters:

- `month` is the real-time clock's month (1..12).
- `tNow` is the `millis()` reading at the start of the pass. Lines 64 and 89 each read `millis()`;
  both are modelled as this one reading.
- `tAfter` is the `millis()` reading after the blocking drive (lines 76 and 97).
- Time never runs backwards. A ghost `clock` field records the latest reading.

## Model

| member | source | states |
|---|---|---|
| `Daylight.WindowOf` | Prototype1/src/main.cpp:33-34 | For every month 1..12 the window satisfies 0 <= sunrise < sunset <= 1439, and lies within the year's widest window [300, 1200) |
| `Daylight.YearBoundsAttained` | Prototype1/src/main.cpp:33-34 | Sunrise 300 and sunset 1200 both occur in the table (June), so these are the tightest year-wide bounds |
| `StepConfig.ConstantValues` | Prototype1/src/main.cpp:21-25 | With 32-bit `int`, 2048*180 does not overflow; `maxTotalSteps == 1024`, `stepsPerMove == 10`, `stepsPerMove*96 <= maxTotalSteps`, 102 whole moves fit, and the last reachable position is 1020 |
| `StepConfig.WholeMovesStopAtLastReachable` | Prototype1/src/main.cpp:89 | A position made of whole moves within `maxTotalSteps` is at most 1020, and one more move fits exactly when it is below 1020 |
| `TimeMapping.MinuteOfDay` | Prototype1/src/main.cpp:81-82 | When the day has not ended, the minute is the floor of simElapsed*1440/144000, lies in [0, 1440], and equals 1440 exactly when simElapsed == 144000 |
| `TimeMapping.MinuteBounds` | Prototype1/src/main.cpp:81-88 | A comparison of the minute with a bound k is the comparison of simElapsed with k*100 ms, on both sides of the window |
| `TimeMapping.MinuteMonotone` | Prototype1/src/main.cpp:81-82 | Later elapsed time never gives an earlier minute |
| `CycleModel.Next` | Prototype1/src/main.cpp:60-105 | A tick never records a `simStartMillis` or `lastStepMillis` later than the clock reading after it |
| `CycleModel.InitialInv` | Prototype1/src/main.cpp:37-39 | The start-up state (no steps, actuator home, coils off) satisfies the invariant |
| `CycleModel.NextPreservesInv` | Prototype1/src/main.cpp:60-105 | Every tick preserves 0 <= stepsMoved <= maxTotalSteps, stepsMoved % stepsPerMove == 0, actuator position == stepsMoved and coils off; the position never passes 1020 |
| `CycleModel.ResetTick` | Prototype1/src/main.cpp:67-77 | When simElapsed > 144000, the tick drives the actuator to 0, switches the coils off, sets stepsMoved to 0 and simStartMillis to the time after the drive, and makes no forward move |
| `CycleModel.NoResetAtDayLength` | Prototype1/src/main.cpp:67-88 | At simElapsed == 144000 there is no reset: the minute is 1440, outside every window, and the tick changes nothing |
| `CycleModel.ForwardMoveExactly` | Prototype1/src/main.cpp:84-97 | The counter advances by stepsPerMove if and only if the day has not ended, sunrise <= minute < sunset, now - lastStepMillis >= 1500 and stepsMoved + stepsPerMove <= maxTotalSteps; such a move leaves the actuator at the new count with its coils off and records the time after the drive |
| `CycleModel.IdleTickUnchanged` | Prototype1/src/main.cpp:87-104 | A tick that neither resets nor moves leaves stepsMoved, simStartMillis, lastStepMillis, the position and the coils unchanged |
| `CycleModel.NoDecreaseWithinDay` | Prototype1/src/main.cpp:87-97 | The counter or the position goes down only on a reset tick |
| `CycleModel.ResetAtHome` | Prototype1/src/main.cpp:67-77 | A reset with the actuator already home changes only the epoch, and still leaves the coils off |
| `CycleModel.MovesRateLimited` | Prototype1/src/main.cpp:89-97 | A non-reset tick that changes the counter or the move time starts at least 1500 ms after the previous move's recorded time |
| `CycleModel.JanuarySunriseEdge` | Prototype1/src/main.cpp:84-89 | In January (window [450, 990)), with time and travel to spare, simulated minute 449 does nothing and minute 450 makes the first move |
| `DailyTravel.InitialDayInv` | Prototype1/src/main.cpp:37-39 | The start-up state agrees with an empty day log |
| `DailyTravel.DayInvStep` | Prototype1/src/main.cpp:84-97 | Each tick keeps the log in step: the counter is moves*stepsPerMove, and the day's moves started between simulated minutes 300 and 1200, at least 1500 ms apart |
| `DailyTravel.TravelPerDayBound` | Prototype1/src/main.cpp:84-97 | Under the log invariant, a simulated day has at most 60 moves and stepsMoved <= 600 < 1020 |
| `DailyTravel.TravelLimitNeverBinds` | Prototype1/src/main.cpp:89 | In every logged state, one more move always fits within maxTotalSteps |
| `CycleRuns.RunKeepsInv` | Prototype1/src/main.cpp:60-105 | Every state a run of ticks reaches satisfies the invariant (bounds, whole moves, position == stepsMoved, coils off) |
| `CycleRuns.RunKeepsDayInv` | Prototype1/src/main.cpp:60-105 | The day log stays in step with the state along any run |
| `CycleRuns.RunWithinDay` | Prototype1/src/main.cpp:87-97 | Along a run with no reset, the epoch is unchanged, stepsMoved grows by exactly stepsPerMove per move, and the position never decreases |
| `CycleRuns.ReachableBounds` | Prototype1/src/main.cpp:37-105 | Every state reached from start-up satisfies the invariant and has stepsMoved <= 600 |
| `CycleRuns.DayMovesBound` | Prototype1/src/main.cpp:84-97 | A simulated day starting at home has at most 60 forward moves, below the 102 that maxTotalSteps / stepsPerMove allows |
| `CycleController.Controller.Setup` | Prototype1/src/main.cpp:41-58 | With the clock found, the day starts at the start-up reading with no steps, the actuator home and the coils off; without it, the controller is halted and cannot tick |
| `CycleController.Controller.DisableCoils` | Prototype1/src/main.cpp:13-18 | All coil outputs are off afterwards |
| `CycleController.Controller.DriveTo` | Prototype1/src/main.cpp:69-72 | The busy loop ends with the actuator at the target, and the coils are energised exactly when it had to move or already were |
| `CycleController.Controller.Tick` | Prototype1/src/main.cpp:60-105 | One pass of `loop()` turns the fields into `Next` of their old values, keeps the invariant and the day log, and advances the observed clock |

## Left out

- Serial logging (lines 42, 50, 68, 99-102) is output only.
- RTC initialisation is reduced to a `rtcFound` flag on `Setup`. The `while (1)` halt becomes `halted`, and `Tick` requires it to be false.
- AccelStepper internals (speed settings, acceleration, step timing) are abstracted away. The busy loop becomes one step toward the target per iteration.
- Pin numbers and the four `digitalWrite` calls are modelled as the single flag `coilsOn`. The half-step wiring order is not modelled.
- `TimeMapping.MinuteOfDay`: the firmware computes the minute in `float`. The model computes the exact integer floor `simElapsed * 1440 / 144000`. A `float` (32-bit on AVR) may round some values differently.
- `millis()` wraps around after about 49.7 days, which would break the unsigned subtractions at lines 64 and 89. The model assumes a monotonic clock without overflow.
- `int` is assumed to be 32 bits wide. On a 16-bit `int` target, `2048 * 180` at line 24 would overflow; that case is not modelled.
- The commented-out `rtc.adjust` call (line 55) is not modelled.
- Lines 64 and 89 read `millis()` twice in one pass. The model uses the single reading `tNow` for both, so the few microseconds between them are not modelled.
