/** The 21 landmarks MediaPipe reports for one hand, and the indices the
    gesture code reads. Coordinates are normalised to the camera image: `x` and
    `y` in image units, `z` relative depth. */
module Landmarks {
  import opened Geometry

  /** MediaPipe always reports exactly 21 points per detected hand. */
  type HandLandmarks = s: seq<Vec3> | |s| == 21
    witness seq(21, _ => Vec3(0.0, 0.0, 0.0))

  const Wrist := 0
  const ThumbTip := 4
  const IndexMcp := 5
  const IndexTip := 8
  const MiddleMcp := 9
  const MiddleTip := 12
  const RingTip := 16
  const PinkyTip := 20

  /** The four fingertips other than the thumb. */
  const FingerTips: seq<nat> := [IndexTip, MiddleTip, RingTip, PinkyTip]

  function SumX(s: seq<Vec3>): real {
    if s == [] then 0.0 else SumX(s[..|s| - 1]) + s[|s| - 1].x
  }

  function SumY(s: seq<Vec3>): real {
    if s == [] then 0.0 else SumY(s[..|s| - 1]) + s[|s| - 1].y
  }

  /** A sum of values that all lie in `[lo, hi]` lies between `n * lo` and `n * hi`. */
  lemma {:induction false} SumXBounds(s: seq<Vec3>, lo: real, hi: real)
    requires forall i :: 0 <= i < |s| ==> lo <= s[i].x <= hi
    ensures |s| as real * lo <= SumX(s) <= |s| as real * hi
  {
    if s != [] {
      SumXBounds(s[..|s| - 1], lo, hi);
    }
  }

  lemma {:induction false} SumYBounds(s: seq<Vec3>, lo: real, hi: real)
    requires forall i :: 0 <= i < |s| ==> lo <= s[i].y <= hi
    ensures |s| as real * lo <= SumY(s) <= |s| as real * hi
  {
    if s != [] {
      SumYBounds(s[..|s| - 1], lo, hi);
    }
  }

  /** The hand position of the dual-hand viewer: the mean `x` and the mean `y`
      of all 21 landmarks. */
  function MeanPosition(lm: HandLandmarks): (real, real) {
    (SumX(lm) / 21.0, SumY(lm) / 21.0)
  }

  /** When every landmark lies in a box, so does the mean position. */
  lemma MeanPositionWithin(lm: HandLandmarks, lo: real, hi: real)
    requires forall i :: 0 <= i < 21 ==> lo <= lm[i].x <= hi && lo <= lm[i].y <= hi
    ensures lo <= MeanPosition(lm).0 <= hi && lo <= MeanPosition(lm).1 <= hi
  {
    SumXBounds(lm, lo, hi);
    SumYBounds(lm, lo, hi);
  }

  /** One detected hand with MediaPipe's handedness label. */
  datatype HandObservation = HandObservation(landmarks: HandLandmarks, handedness: string)

  predicate IsRightHand(h: HandObservation) {
    h.handedness == "Right"
  }
}
