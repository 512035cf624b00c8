/** Travel constants of the stepper-driven actuator.
    The firmware evaluates them in C `int`; this model assumes a 32-bit `int`.
    Every operand is non-negative, so Dafny's `/` agrees with C's truncating division. */
module StepConfig {

  const Int32Max := 0x7FFF_FFFF

  /** Half-steps per full turn of the motor (360 degrees). */
  const StepsPerRevolution := 2048
  /** Largest travel angle in degrees. */
  const MaxDegrees := 180
  /** Number of movement slots the travel is divided into. */
  const TotalDaySteps := 96
  /** `(stepsPerRevolution * maxDegrees) / 360`. */
  const MaxTotalSteps := (StepsPerRevolution * MaxDegrees) / 360
  /** `maxTotalSteps / totalDaySteps`. */
  const StepsPerMove := MaxTotalSteps / TotalDaySteps

  /** The last position a whole number of moves can reach without passing MaxTotalSteps. */
  const LastReachable := MaxTotalSteps / StepsPerMove * StepsPerMove

  /** The constants' values under 32-bit `int`, and the intermediate product does not overflow. */
  lemma ConstantValues()
    ensures StepsPerRevolution * MaxDegrees <= Int32Max
    ensures MaxTotalSteps == 1024 && StepsPerMove == 10 && LastReachable == 1020
    ensures StepsPerMove * TotalDaySteps <= MaxTotalSteps
    ensures MaxTotalSteps / StepsPerMove == 102
  {
  }

  /** A position made of whole moves and not past MaxTotalSteps is at most LastReachable. */
  lemma WholeMovesStopAtLastReachable(pos: int)
    requires 0 <= pos <= MaxTotalSteps && pos % StepsPerMove == 0
    ensures pos <= LastReachable
    ensures pos + StepsPerMove <= MaxTotalSteps <==> pos < LastReachable
  {
  }
}
