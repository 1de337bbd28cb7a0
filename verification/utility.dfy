/** The degree arithmetic of the shared utility header. */
module Utility {

  /**
   clamp_to_unit_circle: subtract one turn when the angle is above 359,
   then add one turn when it is negative. A single wrap, not a full
   normalisation.
   */
  function ClampToUnitCircle(degrees: real): (r: real)
    ensures r == degrees || r == degrees - 360.0 || r == degrees + 360.0
    ensures 0.0 <= degrees < 360.0 ==> r == degrees
    ensures -360.0 <= degrees < 720.0 ==> 0.0 <= r < 360.0
  {
    var d := if degrees > 359.0 then degrees - 360.0 else degrees;
    if d < 0.0 then d + 360.0 else d
  }

  /** Exactly the inputs in [-360, 720) land on the unit circle. */
  lemma ClampNormalisesExactly(degrees: real)
    ensures 0.0 <= ClampToUnitCircle(degrees) < 360.0 <==> -360.0 <= degrees < 720.0
  {
  }

  /** Inputs at or above 720 keep at least one extra turn: 720 comes back as 360. */
  lemma ClampLeavesLargeInputs(degrees: real)
    requires degrees >= 720.0
    ensures ClampToUnitCircle(degrees) == degrees - 360.0 >= 360.0
    ensures ClampToUnitCircle(720.0) == 360.0
  {
  }

  /** Clamping twice is clamping once on the range that normalises. */
  lemma ClampIdempotent(degrees: real)
    requires -360.0 <= degrees < 720.0
    ensures ClampToUnitCircle(ClampToUnitCircle(degrees)) == ClampToUnitCircle(degrees)
  {
  }
}
