/** Runs of the controller: the states reached by a sequence of ticks from a given state. */
module CycleRuns {
  import opened Daylight
  import opened StepConfig
  import opened TimeMapping
  import opened CycleModel
  import opened DailyTravel

  /** What one pass of `loop()` reads from the clocks. */
  datatype Reading = Reading(month: int, tNow: nat, tAfter: nat)

  /** Every reading is a valid month and comes no earlier than the state it is applied to. */
  predicate WellTimed(s: State, rs: seq<Reading>)
    decreases |rs|
  {
    rs == [] ||
    (TimeOk(s, rs[0].month, rs[0].tNow, rs[0].tAfter) &&
     WellTimed(Next(s, rs[0].month, rs[0].tNow, rs[0].tAfter), rs[1..]))
  }

  /** The state after applying every reading in turn. */
  function Run(s: State, rs: seq<Reading>): State
    requires WellTimed(s, rs)
    decreases |rs|
  {
    if rs == [] then s
    else Run(Next(s, rs[0].month, rs[0].tNow, rs[0].tAfter), rs[1..])
  }

  /** The day log after applying every reading in turn. */
  function RunLog(s: State, log: DayLog, rs: seq<Reading>): DayLog
    requires WellTimed(s, rs)
    decreases |rs|
  {
    if rs == [] then log
    else RunLog(Next(s, rs[0].month, rs[0].tNow, rs[0].tAfter),
                LogNext(s, log, rs[0].month, rs[0].tNow, rs[0].tAfter), rs[1..])
  }

  /** How many ticks of the run end the simulated day. */
  function Resets(s: State, rs: seq<Reading>): nat
    requires WellTimed(s, rs)
    decreases |rs|
  {
    if rs == [] then 0
    else
      var r := rs[0];
      (if DayEnded(r.tNow - s.simStart) then 1 else 0) + Resets(Next(s, r.month, r.tNow, r.tAfter), rs[1..])
  }

  /** How many ticks of the run make a forward move. */
  function Moves(s: State, rs: seq<Reading>): nat
    requires WellTimed(s, rs)
    decreases |rs|
  {
    if rs == [] then 0
    else
      var r := rs[0];
      (if !DayEnded(r.tNow - s.simStart) && MoveDue(s, r.month, r.tNow) then 1 else 0)
        + Moves(Next(s, r.month, r.tNow, r.tAfter), rs[1..])
  }

  /** The invariant holds in every state a run reaches. */
  lemma {:induction false} RunKeepsInv(s: State, rs: seq<Reading>)
    requires WellTimed(s, rs) && Inv(s)
    ensures Inv(Run(s, rs))
    decreases |rs|
  {
    if rs != [] {
      var r := rs[0];
      NextPreservesInv(s, r.month, r.tNow, r.tAfter);
      RunKeepsInv(Next(s, r.month, r.tNow, r.tAfter), rs[1..]);
    }
  }

  /** The day log stays in step with the state along a run. */
  lemma {:induction false} RunKeepsDayInv(s: State, log: DayLog, rs: seq<Reading>)
    requires WellTimed(s, rs) && DayInv(s, log)
    ensures DayInv(Run(s, rs), RunLog(s, log, rs))
    decreases |rs|
  {
    if rs != [] {
      var r := rs[0];
      DayInvStep(s, log, r.month, r.tNow, r.tAfter);
      RunKeepsDayInv(Next(s, r.month, r.tNow, r.tAfter), LogNext(s, log, r.month, r.tNow, r.tAfter), rs[1..]);
    }
  }

  /** Within one simulated day (a run without reset) the epoch is kept, and the counter
      and the position only grow, by exactly StepsPerMove per forward move. */
  lemma {:induction false} RunWithinDay(s: State, rs: seq<Reading>)
    requires WellTimed(s, rs) && Inv(s) && Resets(s, rs) == 0
    ensures var e := Run(s, rs);
      && e.simStart == s.simStart
      && e.stepsMoved == s.stepsMoved + Moves(s, rs) * StepsPerMove
      && e.actuatorPos >= s.actuatorPos
    decreases |rs|
  {
    ConstantValues();
    if rs != [] {
      var r := rs[0];
      var n := Next(s, r.month, r.tNow, r.tAfter);
      var moved := if !DayEnded(r.tNow - s.simStart) && MoveDue(s, r.month, r.tNow) then 1 else 0;
      assert !DayEnded(r.tNow - s.simStart);
      assert n.stepsMoved == s.stepsMoved + moved * 10 && n.simStart == s.simStart;
      assert Moves(s, rs) == moved + Moves(n, rs[1..]);
      NextPreservesInv(s, r.month, r.tNow, r.tAfter);
      RunWithinDay(n, rs[1..]);
    }
  }

  /** Every state reached from start-up keeps the invariant and, at most 600 steps out,
      never comes near the travel limit. */
  lemma ReachableBounds(tStart: nat, rs: seq<Reading>)
    requires WellTimed(Initial(tStart), rs)
    ensures Inv(Run(Initial(tStart), rs))
    ensures Run(Initial(tStart), rs).stepsMoved <= MaxMovesPerDay * StepsPerMove
  {
    RunKeepsInv(Initial(tStart), rs);
    RunKeepsDayInv(Initial(tStart), EmptyLog, rs);
    TravelPerDayBound(Run(Initial(tStart), rs), RunLog(Initial(tStart), EmptyLog, rs));
  }

  /** A simulated day that starts at home has at most MaxMovesPerDay (60) forward moves,
      well under the MaxTotalSteps / StepsPerMove (102) that the travel limit allows. */
  lemma DayMovesBound(s: State, rs: seq<Reading>)
    requires WellTimed(s, rs) && Inv(s) && s.stepsMoved == 0 && Resets(s, rs) == 0
    ensures Moves(s, rs) <= MaxMovesPerDay < MaxTotalSteps / StepsPerMove
  {
    ConstantValues();
    RunWithinDay(s, rs);
    RunKeepsDayInv(s, EmptyLog, rs);
    TravelPerDayBound(Run(s, rs), RunLog(s, EmptyLog, rs));
  }
}
