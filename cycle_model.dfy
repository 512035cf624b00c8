/** The per-tick behaviour of the daily-cycle controller as a pure state transition.
    The controller in cycle_controller.dfy is proved to follow `Next` tick by tick;
    the properties of the cycle are proved here, about `Next` and about runs of it. */
module CycleModel {
  import opened Daylight
  import opened StepConfig
  import opened TimeMapping

  /** Minimum real time between two forward moves, in milliseconds. */
  const MinMoveInterval := 1500

  /** The controller's state between ticks: the firmware's globals `stepsMoved`,
      `simStartMillis` and `lastStepMillis`, the stepper's current position and
      whether its coils are energised. */
  datatype State = State(stepsMoved: int, simStart: nat, lastStep: nat, actuatorPos: int, coilsOn: bool)

  /** The state right after `setup()` read the clock at `tStart`. */
  function Initial(tStart: nat): State {
    State(0, tStart, 0, 0, false)
  }

  /** What the tick reads: the calendar month, the time at the start of the tick,
      and the time after any blocking drive of the actuator. Time never runs backwards. */
  predicate TimeOk(s: State, month: int, tNow: nat, tAfter: nat) {
    ValidMonth(month) && s.simStart <= tNow && s.lastStep <= tNow && tNow <= tAfter
  }

  /** The three conditions of a forward move on a tick that is not a reset. */
  predicate MoveDue(s: State, month: int, tNow: nat)
    requires ValidMonth(month) && s.simStart <= tNow && s.lastStep <= tNow
    requires !DayEnded(tNow - s.simStart)
  {
    && WindowOf(month).Contains(MinuteOfDay(tNow - s.simStart))
    && tNow - s.lastStep >= MinMoveInterval
    && s.stepsMoved + StepsPerMove <= MaxTotalSteps
  }

  /** One tick: reset at the end of the simulated day, otherwise perhaps one forward move. */
  function Next(s: State, month: int, tNow: nat, tAfter: nat): (r: State)
    requires TimeOk(s, month, tNow, tAfter)
    ensures r.simStart <= tAfter && r.lastStep <= tAfter
  {
    if DayEnded(tNow - s.simStart) then
      State(0, tAfter, s.lastStep, 0, false)
    else if MoveDue(s, month, tNow) then
      var target := s.stepsMoved + StepsPerMove;
      State(target, s.simStart, tAfter, target, false)
    else
      s
  }

  /** Between ticks: travel within [0, MaxTotalSteps] in whole moves, the actuator
      standing where the step counter says, and its coils off. */
  predicate Inv(s: State) {
    && 0 <= s.stepsMoved <= MaxTotalSteps
    && s.stepsMoved % StepsPerMove == 0
    && s.actuatorPos == s.stepsMoved
    && !s.coilsOn
  }

  lemma InitialInv(tStart: nat)
    ensures Inv(Initial(tStart))
  {
  }

  /** Every tick preserves the invariant; the position then never passes LastReachable. */
  lemma NextPreservesInv(s: State, month: int, tNow: nat, tAfter: nat)
    requires TimeOk(s, month, tNow, tAfter) && Inv(s)
    ensures Inv(Next(s, month, tNow, tAfter))
    ensures Next(s, month, tNow, tAfter).actuatorPos <= LastReachable
  {
    ConstantValues();
    var r := Next(s, month, tNow, tAfter);
    if !DayEnded(tNow - s.simStart) && MoveDue(s, month, tNow) {
      assert r.stepsMoved == s.stepsMoved + 10;
    }
    WholeMovesStopAtLastReachable(r.stepsMoved);
  }

  /** The reset transition: strictly past the end of the simulated day the actuator
      returns home with its coils off, the counter is cleared, the epoch restarts at
      the time after the drive, and no forward move is made. */
  lemma ResetTick(s: State, month: int, tNow: nat, tAfter: nat)
    requires TimeOk(s, month, tNow, tAfter)
    requires tNow - s.simStart > DayMillis
    ensures var r := Next(s, month, tNow, tAfter);
      r.actuatorPos == 0 && !r.coilsOn && r.stepsMoved == 0
      && r.simStart == tAfter && r.lastStep == s.lastStep
  {
  }

  /** Exactly at the end of the simulated day there is no reset: the minute is 1440,
      outside every daylight window, so the tick changes nothing. */
  lemma NoResetAtDayLength(s: State, month: int, tNow: nat, tAfter: nat)
    requires TimeOk(s, month, tNow, tAfter)
    requires tNow - s.simStart == DayMillis
    ensures !DayEnded(tNow - s.simStart)
    ensures MinuteOfDay(tNow - s.simStart) == MinutesPerDay
    ensures Next(s, month, tNow, tAfter) == s
  {
  }

  /** A forward move happens if and only if the tick is not a reset, the minute lies in
      [sunrise, sunset) of the month, MinMoveInterval has passed since the last move and
      one more move stays within MaxTotalSteps. It advances by exactly StepsPerMove,
      drives the actuator there, switches the coils off and records the time after the drive. */
  lemma ForwardMoveExactly(s: State, month: int, tNow: nat, tAfter: nat)
    requires TimeOk(s, month, tNow, tAfter) && Inv(s)
    ensures var r := Next(s, month, tNow, tAfter);
      var elapsed := tNow - s.simStart;
      r.stepsMoved == s.stepsMoved + StepsPerMove
      <==>
      && elapsed <= DayMillis
      && WindowOf(month).sunrise <= MinuteOfDay(elapsed) < WindowOf(month).sunset
      && tNow - s.lastStep >= MinMoveInterval
      && s.stepsMoved + StepsPerMove <= MaxTotalSteps
    ensures var r := Next(s, month, tNow, tAfter);
      r.stepsMoved == s.stepsMoved + StepsPerMove ==>
        r.actuatorPos == r.stepsMoved && !r.coilsOn && r.lastStep == tAfter && r.simStart == s.simStart
  {
  }

  /** A tick that neither resets nor moves leaves the state exactly as it was. */
  lemma IdleTickUnchanged(s: State, month: int, tNow: nat, tAfter: nat)
    requires TimeOk(s, month, tNow, tAfter)
    requires !DayEnded(tNow - s.simStart) && !MoveDue(s, month, tNow)
    ensures Next(s, month, tNow, tAfter) == s
  {
  }

  /** Within a simulated day the counter and the position never decrease;
      only a reset takes them down. */
  lemma NoDecreaseWithinDay(s: State, month: int, tNow: nat, tAfter: nat)
    requires TimeOk(s, month, tNow, tAfter) && Inv(s)
    ensures var r := Next(s, month, tNow, tAfter);
      r.stepsMoved < s.stepsMoved || r.actuatorPos < s.actuatorPos ==> DayEnded(tNow - s.simStart)
  {
  }

  /** Resetting an actuator that is already home changes nothing but the epoch,
      and still leaves the coils off. */
  lemma ResetAtHome(s: State, month: int, tNow: nat, tAfter: nat)
    requires TimeOk(s, month, tNow, tAfter)
    requires DayEnded(tNow - s.simStart) && s.stepsMoved == 0 && s.actuatorPos == 0
    ensures Next(s, month, tNow, tAfter) == s.(simStart := tAfter, coilsOn := false)
  {
  }

  /** A forward move is at least MinMoveInterval after the time recorded for the previous one. */
  lemma MovesRateLimited(s: State, month: int, tNow: nat, tAfter: nat)
    requires TimeOk(s, month, tNow, tAfter)
    requires Next(s, month, tNow, tAfter).stepsMoved != s.stepsMoved || Next(s, month, tNow, tAfter).lastStep != s.lastStep
    requires !DayEnded(tNow - s.simStart)
    ensures tNow >= s.lastStep + MinMoveInterval
  {
  }

  /** January's window is [450, 990): with time and travel to spare, a tick at simulated
      minute 449 does nothing and one at minute 450 makes the first move of the day. */
  lemma JanuarySunriseEdge(s: State, tAfter: nat)
    requires Inv(s) && s.stepsMoved == 0 && s.lastStep + MinMoveInterval <= s.simStart + 45000
    ensures Next(s, 1, s.simStart + 44999, tAfter + s.simStart + 44999) == s
    ensures Next(s, 1, s.simStart + 45000, tAfter + s.simStart + 45000).stepsMoved == StepsPerMove
  {
  }
}
