/** Per-month daylight window of the sun-tracking controller.
    Minutes are minutes since midnight; months are 1..12 as the real-time clock reports them. */
module Daylight {

  /** Sunrise minute per month, January first. */
  const SunriseTable: seq<int> := [450, 420, 375, 345, 315, 300, 330, 360, 390, 420, 435, 450]
  /** Sunset minute per month, January first. */
  const SunsetTable: seq<int> := [990, 1035, 1095, 1140, 1185, 1200, 1200, 1155, 1110, 1065, 1005, 990]

  /** Earliest sunrise and latest sunset of the whole year. */
  const EarliestSunrise := 300
  const LatestSunset := 1200

  /** One row of the table: moves are allowed in [sunrise, sunset). */
  datatype Window = Window(sunrise: int, sunset: int)
  {
    predicate Contains(minute: int) {
      sunrise <= minute < sunset
    }
  }

  predicate ValidMonth(month: int) {
    1 <= month <= 12
  }

  /** The table lookup `sunriseTable[month - 1]`, `sunsetTable[month - 1]`.
      Every window is a non-empty part of one day and lies inside the year's
      widest window [EarliestSunrise, LatestSunset). */
  function WindowOf(month: int): (w: Window)
    requires ValidMonth(month)
    ensures 0 <= w.sunrise < w.sunset <= 1439
    ensures EarliestSunrise <= w.sunrise && w.sunset <= LatestSunset
  {
    Window(SunriseTable[month - 1], SunsetTable[month - 1])
  }

  /** Both year-wide bounds are attained, so they are the tightest such bounds. */
  lemma YearBoundsAttained()
    ensures exists m :: ValidMonth(m) && WindowOf(m).sunrise == EarliestSunrise
    ensures exists m :: ValidMonth(m) && WindowOf(m).sunset == LatestSunset
  {
    assert WindowOf(6).sunrise == EarliestSunrise;
    assert WindowOf(6).sunset == LatestSunset;
  }
}
