/** The display clamp of the progress bar (components/ProgressBar.tsx). */
module ProgressBar {

  /** `Math.min(100, Math.max(0, percentage))`. */
  function SafePercentage(percentage: int): (r: int)
    ensures 0 <= r <= 100
    ensures 0 <= percentage <= 100 ==> r == percentage
    ensures percentage > 100 ==> r == 100
    ensures percentage < 0 ==> r == 0
  {
    var atLeastZero := if percentage < 0 then 0 else percentage;
    if atLeastZero < 100 then atLeastZero else 100
  }

  /** Clamping a clamped value changes nothing. */
  lemma SafePercentageIdempotent(percentage: int)
    ensures SafePercentage(SafePercentage(percentage)) == SafePercentage(percentage)
  {
  }
}
