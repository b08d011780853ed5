/** The progress bar's clamp of its `percent` prop. */
module ProgressBar {
  /** `Math.max(0, Math.min(percent, 100))` */
  function SafePercent(percent: real): (r: real)
    ensures 0.0 <= r <= 100.0
    ensures 0.0 <= percent <= 100.0 ==> r == percent
    ensures percent < 0.0 ==> r == 0.0
    ensures percent > 100.0 ==> r == 100.0
  {
    var capped := if percent < 100.0 then percent else 100.0;
    if 0.0 < capped then capped else 0.0
  }

  /** Clamping keeps the order of two percentages and clamping twice is clamping once. */
  lemma SafePercentMonotone(a: real, b: real)
    requires a <= b
    ensures SafePercent(a) <= SafePercent(b)
    ensures SafePercent(SafePercent(a)) == SafePercent(a)
  {
  }
}
