/** How far the actuator can travel in one simulated day.
    A ghost log of the day's forward moves shows that the rate limit and the daylight
    window allow at most MaxMovesPerDay moves, far fewer than the travel limit allows,
    so the check `stepsMoved + stepsPerMove <= maxTotalSteps` never stops a move. */
module DailyTravel {
  import opened Daylight
  import opened StepConfig
  import opened TimeMapping
  import opened CycleModel

  /** The forward moves of the current simulated day: how many, and the tick start
      times of the first and of the latest one. */
  datatype DayLog = DayLog(moves: nat, firstMoveAt: nat, lastMoveAt: nat)

  const EmptyLog := DayLog(0, 0, 0)

  /** Moves fit between the earliest sunrise and the latest sunset of the year,
      one per MinMoveInterval: 90000 ms / 1500 ms = 60. */
  const MaxMovesPerDay := (LatestSunset - EarliestSunrise) * MillisPerSimMinute / MinMoveInterval

  /** The log after one tick: cleared on reset, extended by a forward move. */
  function LogNext(s: State, log: DayLog, month: int, tNow: nat, tAfter: nat): DayLog
    requires TimeOk(s, month, tNow, tAfter)
  {
    if DayEnded(tNow - s.simStart) then EmptyLog
    else if MoveDue(s, month, tNow) then
      DayLog(log.moves + 1, if log.moves == 0 then tNow else log.firstMoveAt, tNow)
    else log
  }

  /** The log agrees with the counter; every logged move started inside the year's
      widest daylight window of the current simulated day, consecutive moves at
      least MinMoveInterval apart, and the last one no later than `lastStep`. */
  ghost predicate DayInv(s: State, log: DayLog) {
    && s.stepsMoved == log.moves * StepsPerMove
    && (log.moves > 0 ==>
          && s.simStart + EarliestSunrise * MillisPerSimMinute <= log.firstMoveAt
          && log.firstMoveAt + (log.moves - 1) * MinMoveInterval <= log.lastMoveAt
          && log.lastMoveAt < s.simStart + LatestSunset * MillisPerSimMinute
          && log.lastMoveAt <= s.lastStep)
  }

  lemma InitialDayInv(tStart: nat)
    ensures DayInv(Initial(tStart), EmptyLog)
  {
  }

  /** Every tick keeps the log in step with the state. */
  lemma DayInvStep(s: State, log: DayLog, month: int, tNow: nat, tAfter: nat)
    requires TimeOk(s, month, tNow, tAfter) && DayInv(s, log)
    ensures DayInv(Next(s, month, tNow, tAfter), LogNext(s, log, month, tNow, tAfter))
  {
    var elapsed := tNow - s.simStart;
    if !DayEnded(elapsed) && MoveDue(s, month, tNow) {
      // The move's start lies in the year's widest window, read in milliseconds.
      MinuteBounds(elapsed, WindowOf(month).sunrise);
      MinuteBounds(elapsed, WindowOf(month).sunset);
    }
  }

  /** In any simulated day at most MaxMovesPerDay (60) forward moves happen, so the
      counter stays at or below 600 steps, below the travel limit of 1020. */
  lemma TravelPerDayBound(s: State, log: DayLog)
    requires DayInv(s, log)
    ensures MaxMovesPerDay == 60
    ensures log.moves <= MaxMovesPerDay
    ensures s.stepsMoved <= MaxMovesPerDay * StepsPerMove < LastReachable
  {
    if log.moves > 0 {
      assert (log.moves - 1) * MinMoveInterval < (LatestSunset - EarliestSunrise) * MillisPerSimMinute;
    }
  }

  /** Consequently the travel limit never stops a move: whenever the window and the
      rate limit allow a move, the move happens. */
  lemma TravelLimitNeverBinds(s: State, log: DayLog)
    requires DayInv(s, log)
    ensures s.stepsMoved + StepsPerMove <= MaxTotalSteps
  {
  }
}
