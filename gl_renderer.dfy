/** The shader inputs of `src/renderer/gl_renderer.py`: a hand position and a
    detection level that follow the tracker through exponential smoothing,
    and an effect intensity kept in `[0, 1]`. */
module GlRenderer {
  import opened Geometry
  import opened MathUtils

  const PositionSmoothing := 0.15
  const DetectionSmoothing := 0.1

  /** The detection level after one frame in which the hand was or was not seen. */
  function DetectionStep(level: real, detected: bool): (r: real)
    ensures 0.0 <= level <= 1.0 ==> 0.0 <= r <= 1.0
    ensures (if detected then 1.0 else 0.0) - r == 0.9 * ((if detected then 1.0 else 0.0) - level)
  {
    SmoothValueBetween(level, if detected then 1.0 else 0.0, DetectionSmoothing);
    SmoothValue(level, if detected then 1.0 else 0.0, DetectionSmoothing)
  }

  /** The level after a run of frames. */
  function DetectionAfter(level: real, frames: seq<bool>): real {
    if frames == [] then level else DetectionStep(DetectionAfter(level, frames[..|frames| - 1]), frames[|frames| - 1])
  }

  /** Starting in `[0, 1]` (the renderer starts at 0), the level stays there. */
  lemma {:induction false} DetectionAfterInRange(level: real, frames: seq<bool>)
    requires 0.0 <= level <= 1.0
    ensures 0.0 <= DetectionAfter(level, frames) <= 1.0
  {
    if frames != [] {
      DetectionAfterInRange(level, frames[..|frames| - 1]);
    }
  }

  function Power(b: real, k: nat): real {
    if k == 0 then 1.0 else b * Power(b, k - 1)
  }

  /** While the hand stays in view the gap to full detection shrinks by 10%
      per frame. */
  lemma {:induction false} DetectionApproachesOne(level: real, k: nat)
    ensures 1.0 - DetectionAfter(level, seq(k, _ => true)) == Power(0.9, k) * (1.0 - level)
  {
    if k > 0 {
      assert seq(k, _ => true)[..k - 1] == seq(k - 1, _ => true);
      DetectionApproachesOne(level, k - 1);
    }
  }

  class Renderer {
    var handPos: (real, real)
    var handDetected: real
    var intensity: real
    const smoothHandPos: array<real>
    var smoothHandDetected: real

    /** What the shader sees is the smoothed state, within range. */
    ghost predicate Valid()
      reads this, smoothHandPos
    {
      smoothHandPos.Length == 2 &&
      handPos == (smoothHandPos[0], smoothHandPos[1]) && handDetected == smoothHandDetected &&
      0.0 <= smoothHandDetected <= 1.0 && 0.0 <= intensity <= 1.0
    }

    /** The hand starts at the image centre, undetected, at full intensity. */
    constructor ()
      ensures Valid() && fresh(smoothHandPos)
      ensures handPos == (0.5, 0.5) && handDetected == 0.0 && intensity == 1.0
    {
      handPos := (0.5, 0.5);
      handDetected := 0.0;
      intensity := 1.0;
      smoothHandPos := new real[2] [0.5, 0.5];
      smoothHandDetected := 0.0;
    }

    /** `update_hand_position`: each coordinate moves 15% of the way to the
        reading and the detection level 10% of the way to 1 or 0. */
    method UpdateHandPosition(x: real, y: real, detected: bool)
      requires Valid()
      modifies this`handPos, this`handDetected, this`smoothHandDetected, smoothHandPos
      ensures Valid() && intensity == old(intensity)
      ensures handPos == (SmoothValue(old(handPos.0), x, PositionSmoothing), SmoothValue(old(handPos.1), y, PositionSmoothing))
      ensures handDetected == DetectionStep(old(handDetected), detected)
    {
      smoothHandPos[0] := SmoothValue(smoothHandPos[0], x, PositionSmoothing);
      smoothHandPos[1] := SmoothValue(smoothHandPos[1], y, PositionSmoothing);
      var targetDetected := if detected then 1.0 else 0.0;
      smoothHandDetected := SmoothValue(smoothHandDetected, targetDetected, DetectionSmoothing);
      handPos := (smoothHandPos[0], smoothHandPos[1]);
      handDetected := smoothHandDetected;
    }

    /** `set_intensity`: the value clipped to `[0, 1]`. */
    method SetIntensity(value: real)
      requires Valid()
      modifies this`intensity
      ensures Valid()
      ensures 0.0 <= value <= 1.0 ==> intensity == value
      ensures value < 0.0 ==> intensity == 0.0
      ensures value > 1.0 ==> intensity == 1.0
    {
      intensity := Max(0.0, Min(1.0, value));
    }
  }

  /** One smoothing step of a coordinate lands between the old value and the
      reading, 15% of the way along. */
  lemma PositionStepBetween(current: real, reading: real)
    ensures Min(current, reading) <= SmoothValue(current, reading, PositionSmoothing) <= Max(current, reading)
    ensures reading - SmoothValue(current, reading, PositionSmoothing) == 0.85 * (reading - current)
  {
    SmoothValueBetween(current, reading, PositionSmoothing);
  }
}
