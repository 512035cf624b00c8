/** The firmware's controller: the globals updated in place by `loop()`, one call of
    `Tick` per pass of `loop()`. Each tick is proved to follow `CycleModel.Next`. */
module CycleController {
  import opened Daylight
  import opened StepConfig
  import opened TimeMapping
  import opened CycleModel
  import opened DailyTravel

  class Controller {
    /** `stepsMoved`: steps advanced in the current simulated day. */
    var stepsMoved: int
    /** `simStartMillis`: clock reading at which the current simulated day began. */
    var simStart: nat
    /** `lastStepMillis`: clock reading after the latest forward move. */
    var lastStep: nat
    /** The stepper's current position in steps from home. */
    var actuatorPos: int
    /** Whether any of the four coil outputs is driven. */
    var coilsOn: bool
    /** Set when `setup()` found no real-time clock and stopped for good. */
    var halted: bool

    /** The latest clock reading the controller has seen; the clock never runs backwards. */
    ghost var clock: nat
    /** The forward moves of the current simulated day. */
    ghost var log: DayLog

    ghost function State(): CycleModel.State
      reads this
    {
      CycleModel.State(stepsMoved, simStart, lastStep, actuatorPos, coilsOn)
    }

    ghost predicate Valid()
      reads this
    {
      && !halted
      && Inv(State())
      && DayInv(State(), log)
      && simStart <= clock && lastStep <= clock
    }

    /** `setup()`: when the clock is found, the simulated day starts at `tStart` with the
        actuator home and its coils off; otherwise the controller halts and never ticks. */
    constructor Setup(rtcFound: bool, tStart: nat)
      ensures halted == !rtcFound
      ensures rtcFound ==> Valid() && State() == Initial(tStart) && log == EmptyLog && clock == tStart
    {
      stepsMoved, simStart, lastStep := 0, tStart, 0;
      actuatorPos, coilsOn := 0, false;
      halted := !rtcFound;
      clock := tStart;
      log := EmptyLog;
    }

    /** `disableCoils()`: drive all four coil outputs low. */
    method DisableCoils()
      modifies this`coilsOn
      ensures !coilsOn
    {
      coilsOn := false;
    }

    /** `stepper.moveTo(target)` followed by the busy loop around `stepper.run()`:
        one step towards the target per pass until no distance is left. The coils are
        energised by any step taken. */
    method DriveTo(target: int)
      modifies this`actuatorPos, this`coilsOn
      ensures actuatorPos == target
      ensures coilsOn == (old(coilsOn) || old(actuatorPos) != target)
    {
      while actuatorPos != target
        invariant coilsOn == (old(coilsOn) || actuatorPos != old(actuatorPos))
        invariant old(actuatorPos) <= target ==> old(actuatorPos) <= actuatorPos <= target
        invariant target <= old(actuatorPos) ==> target <= actuatorPos <= old(actuatorPos)
        decreases if actuatorPos <= target then target - actuatorPos else actuatorPos - target
      {
        actuatorPos := if actuatorPos < target then actuatorPos + 1 else actuatorPos - 1;
        coilsOn := true;
      }
    }

    /** One pass of `loop()`: `month` is the clock's month, `tNow` the clock reading at
        the start of the pass and `tAfter` the reading after any blocking drive. */
    method Tick(month: int, tNow: nat, tAfter: nat)
      requires Valid() && ValidMonth(month) && clock <= tNow <= tAfter
      modifies this
      ensures Valid()
      ensures State() == Next(old(State()), month, tNow, tAfter)
      ensures log == LogNext(old(State()), old(log), month, tNow, tAfter)
      ensures clock == tAfter && halted == old(halted)
    {
      ghost var s0, log0 := State(), log;
      DayInvStep(s0, log0, month, tNow, tAfter);
      NextPreservesInv(s0, month, tNow, tAfter);
      clock := tAfter;

      var simElapsed := tNow - simStart;
      if simElapsed > DayMillis {
        // End of the simulated day: return home and start the next day.
        DriveTo(0);
        DisableCoils();
        stepsMoved := 0;
        simStart := tAfter;
        log := EmptyLog;
        return;
      }

      var minute := MinuteOfDay(simElapsed);
      var window := WindowOf(month);
      if window.sunrise <= minute && minute < window.sunset {
        if tNow - lastStep >= MinMoveInterval && stepsMoved + StepsPerMove <= MaxTotalSteps {
          var target := stepsMoved + StepsPerMove;
          DriveTo(target);
          DisableCoils();
          stepsMoved := target;
          lastStep := tAfter;
          log := LogNext(s0, log0, month, tNow, tAfter);
        }
      }
    }
  }
}
