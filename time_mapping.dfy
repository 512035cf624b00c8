/** Compressed time: one simulated day lasts DayMillis real milliseconds.
    `simElapsed` is the number of milliseconds since the current simulated day began. */
module TimeMapping {

  /** Real milliseconds per simulated day. */
  const DayMillis := 144000
  const MinutesPerDay := 1440
  /** Real milliseconds per simulated minute. */
  const MillisPerSimMinute := DayMillis / MinutesPerDay

  /** The simulated day is over once strictly more than DayMillis have elapsed. */
  predicate DayEnded(simElapsed: nat) {
    simElapsed > DayMillis
  }

  /** Simulated minute of day. The firmware computes `(int)((simElapsed / 144000.0) * 1440.0)`
      in floating point; this is the exact floor of that real quotient, computed in integers. */
  function MinuteOfDay(simElapsed: nat): (m: nat)
    requires !DayEnded(simElapsed)
    ensures m * DayMillis <= simElapsed * MinutesPerDay < (m + 1) * DayMillis
    ensures m <= MinutesPerDay
    ensures m == MinutesPerDay <==> simElapsed == DayMillis
  {
    simElapsed * MinutesPerDay / DayMillis
  }

  /** A minute bound read back as a bound on elapsed milliseconds. */
  lemma MinuteBounds(simElapsed: nat, minute: int)
    requires !DayEnded(simElapsed)
    ensures minute <= MinuteOfDay(simElapsed) <==> minute * MillisPerSimMinute <= simElapsed
    ensures MinuteOfDay(simElapsed) < minute <==> simElapsed < minute * MillisPerSimMinute
  {
  }

  /** Later in the day never maps to an earlier minute. */
  lemma MinuteMonotone(e1: nat, e2: nat)
    requires e1 <= e2 && !DayEnded(e2)
    ensures MinuteOfDay(e1) <= MinuteOfDay(e2)
  {
  }
}
