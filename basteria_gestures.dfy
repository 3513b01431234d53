/** The gesture arithmetic of the dual-hand viewer in `basteria_mediapipe.py`:
    landmark distances, the fist and cross-hand touch tests, the pinch ramps that
    drive zoom and the four modes, and the wrist-velocity estimate. Everything
    here is a value computation; the viewer's state updates that use it live in
    the module BasteriaViewer. */
module BasteriaGestures {
  import opened RealArith
  import opened Geometry
  import opened Landmarks
  import opened MathUtils

  /** 3-D Euclidean distance of two landmarks. */
  function LandmarkDistance(sqrt: real -> real, p1: Vec3, p2: Vec3): (d: real)
    requires IsSqrt(sqrt)
    ensures 0.0 <= d
  {
    sqrt(SqDist3(p1, p2))
  }

  /** A landmark distance is below a bound exactly when its square is below the
      squared bound, so every threshold test can be read without a root. */
  lemma LandmarkDistanceBelow(sqrt: real -> real, p1: Vec3, p2: Vec3, c: real)
    requires IsSqrt(sqrt) && 0.0 <= c
    ensures LandmarkDistance(sqrt, p1, p2) < c <==> SqDist3(p1, p2) < c * c
  {
    RootBelow(sqrt, SqDist3(p1, p2), c);
  }

  /** A closed hand: every fingertip except the thumb's is nearer to the wrist
      than 0.8 times the wrist's distance to the index knuckle. */
  predicate IsFist(sqrt: real -> real, lm: HandLandmarks)
    requires IsSqrt(sqrt)
  {
    var threshold := LandmarkDistance(sqrt, lm[IndexMcp], lm[Wrist]) * 0.8;
    && LandmarkDistance(sqrt, lm[IndexTip], lm[Wrist]) < threshold
    && LandmarkDistance(sqrt, lm[MiddleTip], lm[Wrist]) < threshold
    && LandmarkDistance(sqrt, lm[RingTip], lm[Wrist]) < threshold
    && LandmarkDistance(sqrt, lm[PinkyTip], lm[Wrist]) < threshold
  }

  /** The fist test without roots: each fingertip's squared distance to the wrist
      is below 0.64 times the knuckle's squared distance (0.64 = 0.8 * 0.8). */
  lemma IsFistSquared(sqrt: real -> real, lm: HandLandmarks)
    requires IsSqrt(sqrt)
    ensures IsFist(sqrt, lm) <==> FistSquared(lm)
  {
    var base := SqDist3(lm[IndexMcp], lm[Wrist]);
    assert LandmarkDistance(sqrt, lm[IndexMcp], lm[Wrist]) * 0.8 == 0.8 * sqrt(base);
    RootBelowScaled(sqrt, SqDist3(lm[IndexTip], lm[Wrist]), base, 0.8);
    RootBelowScaled(sqrt, SqDist3(lm[MiddleTip], lm[Wrist]), base, 0.8);
    RootBelowScaled(sqrt, SqDist3(lm[RingTip], lm[Wrist]), base, 0.8);
    RootBelowScaled(sqrt, SqDist3(lm[PinkyTip], lm[Wrist]), base, 0.8);
  }

  /** The squared form of the fist test. */
  predicate FistSquared(lm: HandLandmarks) {
    var bound := 0.64 * SqDist3(lm[IndexMcp], lm[Wrist]);
    && SqDist3(lm[IndexTip], lm[Wrist]) < bound
    && SqDist3(lm[MiddleTip], lm[Wrist]) < bound
    && SqDist3(lm[RingTip], lm[Wrist]) < bound
    && SqDist3(lm[PinkyTip], lm[Wrist]) < bound
  }

  /** Distance below which the right index tip counts as touching the left wrist. */
  const TouchThreshold := 0.06

  /** The cross-hand touch that cycles the mode. */
  predicate TouchDetected(sqrt: real -> real, right: HandLandmarks, left: HandLandmarks)
    requires IsSqrt(sqrt)
  {
    LandmarkDistance(sqrt, right[IndexTip], left[Wrist]) < TouchThreshold
  }

  /** The touch test reads `d < 0.06` as `d * d < 0.0036`. */
  lemma TouchSquared(sqrt: real -> real, right: HandLandmarks, left: HandLandmarks)
    requires IsSqrt(sqrt)
    ensures TouchDetected(sqrt, right, left) <==> SqDist3(right[IndexTip], left[Wrist]) < 0.0036
  {
    LandmarkDistanceBelow(sqrt, right[IndexTip], left[Wrist], TouchThreshold);
  }

  /** Thumb-tip to index-tip distance in 3-D, the pinch of every mode. */
  function PinchDistance(sqrt: real -> real, lm: HandLandmarks): (d: real)
    requires IsSqrt(sqrt)
    ensures 0.0 <= d
  {
    LandmarkDistance(sqrt, lm[ThumbTip], lm[IndexTip])
  }

  /** The right-hand pinch normalised over `[0.02, 0.20]` and clamped to `[0, 1]`. */
  function ZoomLevel(pinch: real): (t: real)
    ensures 0.0 <= t <= 1.0
    ensures pinch <= 0.02 ==> t == 0.0
    ensures 0.20 <= pinch ==> t == 1.0
    ensures 0.02 <= pinch <= 0.20 ==> t == (pinch - 0.02) / 0.18
  {
    Clamp((pinch - 0.02) / (0.20 - 0.02), 0.0, 1.0)
  }

  /** A wider pinch never zooms in further. */
  lemma ZoomLevelMonotone(p: real, q: real)
    requires p <= q
    ensures ZoomLevel(p) <= ZoomLevel(q)
  {
    ClampMonotone((p - 0.02) / 0.18, (q - 0.02) / 0.18, 0.0, 1.0);
  }

  /** The camera distance the pinch asks for: 5 when closed, 25 when open. */
  function ZoomTarget(t: real): (target: real)
    ensures 0.0 <= t <= 1.0 ==> 5.0 <= target <= 25.0
  {
    5.0 + t * 20.0
  }

  /** One frame of zoom: 40% of the way to the target, then clamped to `[2, 50]`. */
  function ZoomStep(distance: real, target: real): (r: real)
    ensures 2.0 <= r <= 50.0
  {
    Clamp(distance + (target - distance) * 0.4, 2.0, 50.0)
  }

  /** From an in-range distance toward a reachable target the clamp never acts:
      the step is plain smoothing with factor 0.4, lands between the old distance
      and the target, and leaves 60% of the gap. */
  lemma ZoomStepSmooths(distance: real, target: real)
    requires 2.0 <= distance <= 50.0 && 5.0 <= target <= 25.0
    ensures ZoomStep(distance, target) == SmoothValue(distance, target, 0.4)
    ensures Min(distance, target) <= ZoomStep(distance, target) <= Max(distance, target)
    ensures target - ZoomStep(distance, target) == 0.6 * (target - distance)
  {
    SmoothValueIsLerp(distance, target, 0.4);
    SmoothValueBetween(distance, target, 0.4);
  }

  /** The bacteria-mode factor: 1 for a pinch below 0.015, 0 from 0.1 on, and a
      falling line in between. */
  function BacteriaFactor(pinch: real): (f: real)
    ensures 0.0 <= f <= 1.0
    ensures pinch < 0.015 ==> f == 1.0
    ensures 0.1 <= pinch ==> f == 0.0
  {
    if pinch < 0.015 then 1.0
    else if pinch < 0.1 then 1.0 - (pinch - 0.015) / (0.1 - 0.015)
    else 0.0
  }

  /** Opening the pinch never raises the factor: the ramp is continuous and falling. */
  lemma BacteriaFactorAntitone(p: real, q: real)
    requires p <= q
    ensures BacteriaFactor(q) <= BacteriaFactor(p)
  {
  }

  /** What the left hand sets in bacteria mode. */
  datatype BacteriaLook = BacteriaLook(shake: real, blend: real, opacity: real, color: Rgb)

  /** Per-channel linear blend of two colours. */
  function BlendColor(a: Rgb, b: Rgb, t: real): Rgb {
    Rgb((1.0 - t) * a.r + t * b.r, (1.0 - t) * a.g + t * b.g, (1.0 - t) * a.b + t * b.b)
  }

  /** Shake and blend equal the factor, opacity falls from 1 to 0.4, and the white
      to red blend is `[1, 1 - f, 1 - f]`. */
  function BacteriaEffect(f: real): (look: BacteriaLook)
    ensures look.shake == f && look.blend == f
    ensures 0.0 <= f <= 1.0 ==> 0.4 <= look.opacity <= 1.0
    ensures look.color == Rgb(1.0, 1.0 - f, 1.0 - f)
  {
    BacteriaLook(f, f, 1.0 - f * 0.6, BlendColor(White, Red, f))
  }

  /** The DNA-mode strand factor `clip((d - 0.02) / 0.15, 0, 1)`. */
  function StrandSeparation(pinch: real): (f: real)
    ensures 0.0 <= f <= 1.0
    ensures pinch <= 0.02 ==> f == 0.0
    ensures 0.17 <= pinch ==> f == 1.0
  {
    Clamp((pinch - 0.02) / 0.15, 0.0, 1.0)
  }

  /** The enzyme-mode attachment `1 - clip((d - 0.02) / 0.10, 0, 1)`: full for a
      closed pinch, none from 0.12 on. */
  function EnzymeAttachment(pinch: real): (a: real)
    ensures 0.0 <= a <= 1.0
    ensures pinch <= 0.02 ==> a == 1.0
    ensures 0.12 <= pinch ==> a == 0.0
  {
    1.0 - Clamp((pinch - 0.02) / (0.12 - 0.02), 0.0, 1.0)
  }

  /** A wider pinch never attaches the enzyme further. */
  lemma EnzymeAttachmentAntitone(p: real, q: real)
    requires p <= q
    ensures EnzymeAttachment(q) <= EnzymeAttachment(p)
  {
    ClampMonotone((p - 0.02) / 0.10, (q - 0.02) / 0.10, 0.0, 1.0);
  }

  /** NumPy's `interp` at one point over the two-point table `[x0, x1] -> [y0, y1]`:
      constant outside the table, linear inside. */
  function Interp(x: real, x0: real, x1: real, y0: real, y1: real): (y: real)
    requires x0 < x1
    ensures x <= x0 ==> y == y0
    ensures x1 <= x ==> y == y1
    ensures y0 <= y1 ==> y0 <= y <= y1
  {
    if x <= x0 then y0
    else if x1 <= x then y1
    else
      DivSigns(x - x0, x1 - x0);
      ScaleBetween((x - x0) / (x1 - x0), y1 - y0);
      y0 + (x - x0) / (x1 - x0) * (y1 - y0)
  }

  /** How far apart the two hands are, as a DNA-mode factor: `interp` of the
      horizontal gap over `[0.25, 0.8] -> [0, 1]`. */
  function HandSeparation(rightPos: (real, real), leftPos: (real, real)): (f: real)
    ensures 0.0 <= f <= 1.0
    ensures Abs(rightPos.0 - leftPos.0) <= 0.25 ==> f == 0.0
    ensures 0.8 <= Abs(rightPos.0 - leftPos.0) ==> f == 1.0
  {
    Interp(Abs(rightPos.0 - leftPos.0), 0.25, 0.8, 0.0, 1.0)
  }

  /** A wrist sample of the left-hand history: image position and wall-clock time. */
  datatype Sample = Sample(pos: (real, real), time: real)

  /** The history is a deque that keeps the 5 newest samples. */
  const HistoryCapacity := 5

  /** Appending to the bounded deque: the newest sample goes last and, once the
      deque is full, the oldest one drops out. */
  function PushSample(history: seq<Sample>, s: Sample): (r: seq<Sample>)
    ensures |r| == Min((|history| + 1) as real, HistoryCapacity as real) as int
    ensures r == (history + [s])[|history| + 1 - |r|..]
  {
    var full := history + [s];
    if |full| > HistoryCapacity then full[|full| - HistoryCapacity..] else full
  }

  /** Speed of the left wrist: displacement from the oldest to the newest sample
      over their time difference, once more than two samples are held and time
      has advanced; 0 otherwise. */
  function HandVelocity(sqrt: real -> real, history: seq<Sample>): (v: real)
    requires IsSqrt(sqrt)
    ensures 0.0 <= v
    ensures |history| <= 2 ==> v == 0.0
    ensures |history| > 2 && history[|history| - 1].time <= history[0].time ==> v == 0.0
  {
    if |history| > 2 then
      var start, end := history[0], history[|history| - 1];
      var deltaTime := end.time - start.time;
      var dist := Distance2D(sqrt, start.pos, end.pos);
      if deltaTime > 0.0 then
        DivSigns(dist, deltaTime);
        dist / deltaTime
      else 0.0
    else 0.0
  }

  /** A worked case: three samples over 2 seconds whose ends are 1 apart give
      speed 0.5, whatever the middle sample. */
  lemma HandVelocityExample(sqrt: real -> real, middle: Sample)
    requires IsSqrt(sqrt)
    ensures HandVelocity(sqrt, [Sample((0.0, 0.0), 10.0), middle, Sample((0.6, 0.8), 12.0)]) == 0.5
  {
    var h := [Sample((0.0, 0.0), 10.0), middle, Sample((0.6, 0.8), 12.0)];
    assert SqDist2((0.6, 0.8), (0.0, 0.0)) == 1.0;
    RootUnique(sqrt, 1.0, 1.0);
    assert Distance2D(sqrt, h[0].pos, h[2].pos) == 1.0;
  }
}
