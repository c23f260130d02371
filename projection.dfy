/** The what-if analysis (app.py lines 160-164): a linear projection of the
    on-time rate capped at 100, and the GMV recovered by fewer cancellations. */
module Projection {

  /** The sliders' ranges: prep-time reduction in minutes, cancellation-rate
      reduction in percent. */
  const PREP_MIN: int := 1
  const PREP_MAX: int := 15
  const CANCEL_MIN: int := 5
  const CANCEL_MAX: int := 30

  /** Half a point of on-time rate per minute of prep time saved, capped at 100
      (Python's `min`, which keeps the first argument on a tie). */
  function ProjectedOnTime(onTimeRate: real, prepReduction: int): (r: real)
    requires PREP_MIN <= prepReduction <= PREP_MAX
    ensures r <= 100.0
    ensures r <= onTimeRate + (prepReduction as real) * 0.5
    ensures r == 100.0 || r == onTimeRate + (prepReduction as real) * 0.5
    ensures onTimeRate <= 100.0 ==> onTimeRate < r || r == 100.0
  {
    var raised := onTimeRate + (prepReduction as real) * 0.5;
    if 100.0 < raised then 100.0 else raised
  }

  /** A bigger reduction never projects a lower rate. */
  lemma ProjectedOnTimeMonotone(onTimeRate: real, p: int, q: int)
    requires PREP_MIN <= p <= q <= PREP_MAX
    ensures ProjectedOnTime(onTimeRate, p) <= ProjectedOnTime(onTimeRate, q)
  {
  }

  /** For a rate in [0, 100] the projection never lowers it and stays a
      percentage; it adds exactly half the minutes saved while below the cap. */
  lemma ProjectedOnTimeIsPercentage(onTimeRate: real, prepReduction: int)
    requires PREP_MIN <= prepReduction <= PREP_MAX
    requires 0.0 <= onTimeRate <= 100.0
    ensures onTimeRate <= ProjectedOnTime(onTimeRate, prepReduction) <= 100.0
    ensures onTimeRate + (prepReduction as real) * 0.5 <= 100.0 ==>
      ProjectedOnTime(onTimeRate, prepReduction) == onTimeRate + (prepReduction as real) * 0.5
  {
  }

  /** GMV times the cancellation reduction, as a fraction of 100. */
  function RecoveredGmv(gmv: real, cancelReduction: int): (r: real)
    requires CANCEL_MIN <= cancelReduction <= CANCEL_MAX
    ensures r * 100.0 == gmv * (cancelReduction as real)
    ensures 0.0 <= gmv ==> gmv * 0.05 <= r <= gmv * 0.3
  {
    gmv * (cancelReduction as real) / 100.0
  }

  /** The worked values: 80 + 5 minutes gives 82.5, 97 + 15 minutes is capped at
      100 (not 104.5), and a 10% reduction recovers 10000 of a GMV of 100000. */
  lemma WorkedExamples()
    ensures ProjectedOnTime(80.0, 5) == 82.5
    ensures ProjectedOnTime(97.0, 15) == 100.0
    ensures RecoveredGmv(100000.0, 10) == 10000.0
  {
  }
}
