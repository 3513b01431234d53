/** The simpler dual-hand viewer of `basteria_viewer_mediapipe.py`: the right
    hand rotates the camera with the palm and zooms with a planar pinch (a wider
    pinch brings the camera closer), the left hand's pinch switches the model
    between red and white, and its sideways motion fades the model while
    holding still restores it. Camera frames arrive as the hands MediaPipe
    reported; the mouse and the keyboard are parameters of their handlers. */
module VariantViewer {
  import opened RealArith
  import opened Geometry
  import opened Wrappers
  import opened Landmarks
  import opened MathUtils

  // ---------------------------------------------------------------- gesture measures

  /** `calculate_pinch_distance`: the distance from thumb tip to index tip in
      the image plane; the depth coordinate is ignored. */
  function PlanarPinch(sqrt: real -> real, lm: HandLandmarks): (d: real)
    requires IsSqrt(sqrt)
    ensures 0.0 <= d
  {
    Distance2D(sqrt, (lm[ThumbTip].x, lm[ThumbTip].y), (lm[IndexTip].x, lm[IndexTip].y))
  }

  /** The palm point the variant tracks: landmark 9, in image units. */
  function Palm(lm: HandLandmarks): (real, real) {
    (lm[MiddleMcp].x, lm[MiddleMcp].y)
  }

  /** The right-hand zoom level: the pinch normalised over `[0.02, 0.15]` and
      clipped to `[0, 1]`. */
  function VariantZoomLevel(pinch: real): (t: real)
    ensures 0.0 <= t <= 1.0
    ensures pinch <= 0.02 ==> t == 0.0
    ensures 0.15 <= pinch ==> t == 1.0
    ensures 0.02 <= pinch <= 0.15 ==> t == (pinch - 0.02) / 0.13
  {
    Clamp((pinch - 0.02) / (0.15 - 0.02), 0.0, 1.0)
  }

  /** The inverted target: 25 for a closed pinch, 5 for an open one. */
  function VariantZoomTarget(t: real): (target: real)
    ensures 0.0 <= t <= 1.0 ==> 5.0 <= target <= 25.0
    ensures t == 0.0 ==> target == 25.0
    ensures t == 1.0 ==> target == 5.0
  {
    25.0 - t * 20.0
  }

  /** A wider pinch never asks for a farther camera. */
  lemma VariantZoomInverted(p: real, q: real)
    requires p <= q
    ensures VariantZoomTarget(VariantZoomLevel(q)) <= VariantZoomTarget(VariantZoomLevel(p))
  {
    ClampMonotone((p - 0.02) / 0.13, (q - 0.02) / 0.13, 0.0, 1.0);
  }

  /** One frame of zoom: a tenth of the way to the target, then clamped to `[2, 50]`. */
  function VariantZoomStep(distance: real, target: real): (r: real)
    ensures 2.0 <= r <= 50.0
  {
    Clamp(distance + (target - distance) * 0.1, 2.0, 50.0)
  }

  /** From an in-range distance toward a reachable target the clamp never acts:
      the step is the `smooth_value` of factor 0.1, stays between distance and
      target, and leaves nine tenths of the gap. */
  lemma VariantZoomStepSmooths(distance: real, target: real)
    requires 2.0 <= distance <= 50.0 && 5.0 <= target <= 25.0
    ensures VariantZoomStep(distance, target) == SmoothValue(distance, target, 0.1)
    ensures Min(distance, target) <= VariantZoomStep(distance, target) <= Max(distance, target)
    ensures target - VariantZoomStep(distance, target) == 0.9 * (target - distance)
  {
    SmoothValueIsLerp(distance, target, 0.1);
    SmoothValueBetween(distance, target, 0.1);
  }

  /** The left hand's opacity rule. Against the previous left-palm position, a
      sideways move of more than 0.02 fades by three times the move, clipped to
      `[0.1, 1]`; a move of less than 0.01 restores 0.02, capped at 1; without a
      previous position, or for a move in between, the opacity stays. */
  function OpacityStep(opacity: real, last: Option<(real, real)>, handX: real): (o: real)
    ensures last.None? ==> o == opacity
    ensures last.Some? && Abs(handX - last.value.0) > 0.02 ==> o == Clamp(opacity - Abs(handX - last.value.0) * 3.0, 0.1, 1.0)
    ensures last.Some? && Abs(handX - last.value.0) < 0.01 ==> o == Min(opacity + 0.02, 1.0)
    ensures last.Some? && 0.01 <= Abs(handX - last.value.0) <= 0.02 ==> o == opacity
    ensures 0.1 <= opacity <= 1.0 ==> 0.1 <= o <= 1.0
  {
    if last.None? then opacity
    else
      var dx := Abs(handX - last.value.0);
      var faded := if dx > 0.02 then Clamp(opacity - dx * 3.0, 0.1, 1.0) else opacity;
      if dx < 0.01 then Min(faded + 0.02, 1.0) else faded
  }

  /** A left hand held still for `k` frames restores `0.02` per frame until full. */
  function HeldStill(opacity: real, x: real, k: nat): real {
    if k == 0 then opacity else OpacityStep(HeldStill(opacity, x, k - 1), Some((x, 0.0)), x)
  }

  lemma {:induction false} HeldStillRecovers(opacity: real, x: real, k: nat)
    requires opacity <= 1.0
    ensures HeldStill(opacity, x, k) == Min(opacity + 0.02 * k as real, 1.0)
  {
    if k > 0 {
      HeldStillRecovers(opacity, x, k - 1);
    }
  }

  // ---------------------------------------------------------------- the controlled values

  /** What the hand handlers change: the camera, the model's look, and the last
      palm position of each hand. */
  datatype Controls = Controls(
    distance: real, rotationX: real, rotationY: real,
    color: Rgb, opacity: real, redMode: bool,
    lastRight: Option<(real, real)>, lastLeft: Option<(real, real)>)

  /** The ranges the handlers keep: distance in `[2, 50]`, opacity in
      `[0.1, 1]`, and the colour red exactly in red mode and white otherwise. */
  predicate InRange(c: Controls) {
    && 2.0 <= c.distance <= 50.0
    && 0.1 <= c.opacity <= 1.0
    && c.color == (if c.redMode then Red else White)
  }

  /** `process_right_hand`: rotate by 150 times the palm's move when a previous
      position exists, zoom toward the pinch's target, remember the palm. */
  function RightHandStep(sqrt: real -> real, c: Controls, lm: HandLandmarks): (r: Controls)
    requires IsSqrt(sqrt)
    ensures r.lastRight == Some(Palm(lm)) && r.lastLeft == c.lastLeft
    ensures r.color == c.color && r.opacity == c.opacity && r.redMode == c.redMode
    ensures c.lastRight.None? ==> r.rotationX == c.rotationX && r.rotationY == c.rotationY
    ensures c.lastRight.Some? ==>
      r.rotationY == c.rotationY + (Palm(lm).0 - c.lastRight.value.0) * 150.0 &&
      r.rotationX == c.rotationX + (Palm(lm).1 - c.lastRight.value.1) * 150.0
    ensures r.distance == VariantZoomStep(c.distance, VariantZoomTarget(VariantZoomLevel(PlanarPinch(sqrt, lm))))
    ensures InRange(c) ==> InRange(r)
  {
    var (x, y) := Palm(lm);
    var rotY := if c.lastRight.Some? then c.rotationY + (x - c.lastRight.value.0) * 150.0 else c.rotationY;
    var rotX := if c.lastRight.Some? then c.rotationX + (y - c.lastRight.value.1) * 150.0 else c.rotationX;
    var target := VariantZoomTarget(VariantZoomLevel(PlanarPinch(sqrt, lm)));
    c.(rotationX := rotX, rotationY := rotY, distance := VariantZoomStep(c.distance, target), lastRight := Some((x, y)))
  }

  /** `process_left_hand`: red exactly for a pinch under 0.05, the opacity rule
      against the previous left palm, and the palm remembered. */
  function LeftHandStep(sqrt: real -> real, c: Controls, lm: HandLandmarks): (r: Controls)
    requires IsSqrt(sqrt)
    ensures r.redMode <==> PlanarPinch(sqrt, lm) < 0.05
    ensures r.color == (if r.redMode then Red else White)
    ensures r.opacity == OpacityStep(c.opacity, c.lastLeft, Palm(lm).0)
    ensures r.lastLeft == Some(Palm(lm)) && r.lastRight == c.lastRight
    ensures r.distance == c.distance && r.rotationX == c.rotationX && r.rotationY == c.rotationY
    ensures InRange(c) ==> InRange(r)
  {
    var red := PlanarPinch(sqrt, lm) < 0.05;
    c.(redMode := red, color := if red then Red else White,
       opacity := OpacityStep(c.opacity, c.lastLeft, Palm(lm).0), lastLeft := Some(Palm(lm)))
  }

  /** Red mode is a test on the squared planar pinch, no root needed. */
  lemma RedModeSquared(sqrt: real -> real, c: Controls, lm: HandLandmarks)
    requires IsSqrt(sqrt)
    ensures LeftHandStep(sqrt, c, lm).redMode <==>
      SqDist2((lm[IndexTip].x, lm[IndexTip].y), (lm[ThumbTip].x, lm[ThumbTip].y)) < 0.0025
  {
    Distance2DBelow(sqrt, (lm[ThumbTip].x, lm[ThumbTip].y), (lm[IndexTip].x, lm[IndexTip].y), 0.05);
  }

  function HandStep(sqrt: real -> real, c: Controls, h: HandObservation): Controls
    requires IsSqrt(sqrt)
  {
    if IsRightHand(h) then RightHandStep(sqrt, c, h.landmarks) else LeftHandStep(sqrt, c, h.landmarks)
  }

  /** The loop of `process_hand_tracking`: each detected hand in report order. */
  function AllHands(sqrt: real -> real, c: Controls, hands: seq<HandObservation>): Controls
    requires IsSqrt(sqrt)
  {
    if hands == [] then c else HandStep(sqrt, AllHands(sqrt, c, hands[..|hands| - 1]), hands[|hands| - 1])
  }

  /** Whatever the hands do, the ranges hold frame after frame. */
  lemma {:induction false} AllHandsInRange(sqrt: real -> real, c: Controls, hands: seq<HandObservation>)
    requires IsSqrt(sqrt) && InRange(c)
    ensures InRange(AllHands(sqrt, c, hands))
  {
    if hands != [] {
      AllHandsInRange(sqrt, c, hands[..|hands| - 1]);
    }
  }

  /** A frame that shows only left hands leaves the camera where it was. */
  lemma {:induction false} LeftHandsKeepCamera(sqrt: real -> real, c: Controls, hands: seq<HandObservation>)
    requires IsSqrt(sqrt)
    requires forall i :: 0 <= i < |hands| ==> !IsRightHand(hands[i])
    ensures var r := AllHands(sqrt, c, hands);
      r.distance == c.distance && r.rotationX == c.rotationX && r.rotationY == c.rotationY && r.lastRight == c.lastRight
  {
    if hands != [] {
      LeftHandsKeepCamera(sqrt, c, hands[..|hands| - 1]);
    }
  }

  /** A frame without hands forgets both palms. */
  function Forget(c: Controls): (r: Controls)
    ensures r.lastRight == None && r.lastLeft == None
    ensures r == c.(lastRight := None, lastLeft := None)
  {
    c.(lastRight := None, lastLeft := None)
  }

  /** After a frame without hands, the next right hand zooms but does not rotate. */
  lemma RightHandAfterForget(sqrt: real -> real, c: Controls, lm: HandLandmarks)
    requires IsSqrt(sqrt)
    ensures var r := RightHandStep(sqrt, Forget(c), lm);
      r.rotationX == c.rotationX && r.rotationY == c.rotationY
  {
  }

  datatype VariantKey = Quit | Escape | KeyC | KeyH | KeyR | OtherKey

  // ---------------------------------------------------------------- the viewer

  class Viewer {
    var cameraDistance: real
    var cameraRotationX: real
    var cameraRotationY: real
    var modelColor: Rgb
    var modelOpacity: real
    var isRedMode: bool
    var showCamera: bool
    var handControlEnabled: bool
    var lastRightHandPos: Option<(real, real)>
    var lastLeftHandPos: Option<(real, real)>
    var lastMousePos: Option<(int, int)>

    function Snapshot(): Controls
      reads this
    {
      Controls(cameraDistance, cameraRotationX, cameraRotationY, modelColor, modelOpacity, isRedMode,
               lastRightHandPos, lastLeftHandPos)
    }

    ghost predicate Valid()
      reads this
    {
      InRange(Snapshot())
    }

    /** The initial state: distance 15, no rotation, a white opaque model. */
    constructor ()
      ensures Valid()
      ensures Snapshot() == Controls(15.0, 0.0, 0.0, White, 1.0, false, None, None)
      ensures showCamera && handControlEnabled && lastMousePos == None
    {
      cameraDistance := 15.0;
      cameraRotationX := 0.0;
      cameraRotationY := 0.0;
      modelColor := White;
      modelOpacity := 1.0;
      isRedMode := false;
      showCamera := true;
      handControlEnabled := true;
      lastRightHandPos := None;
      lastLeftHandPos := None;
      lastMousePos := None;
    }

    method ProcessRightHand(sqrt: real -> real, lm: HandLandmarks, handX: real, handY: real)
      requires IsSqrt(sqrt) && Valid() && (handX, handY) == Palm(lm)
      modifies this`cameraRotationX, this`cameraRotationY, this`cameraDistance, this`lastRightHandPos
      ensures Valid()
      ensures Snapshot() == RightHandStep(sqrt, old(Snapshot()), lm)
    {
      if lastRightHandPos.Some? {
        var dx := (handX - lastRightHandPos.value.0) * 150.0;
        var dy := (handY - lastRightHandPos.value.1) * 150.0;
        cameraRotationY := cameraRotationY + dx;
        cameraRotationX := cameraRotationX + dy;
      }
      var pinch := PlanarPinch(sqrt, lm);
      var normalized := VariantZoomLevel(pinch);
      var target := VariantZoomTarget(normalized);
      cameraDistance := VariantZoomStep(cameraDistance, target);
      lastRightHandPos := Some((handX, handY));
    }

    method ProcessLeftHand(sqrt: real -> real, lm: HandLandmarks, handX: real, handY: real)
      requires IsSqrt(sqrt) && Valid() && (handX, handY) == Palm(lm)
      modifies this`isRedMode, this`modelColor, this`modelOpacity, this`lastLeftHandPos
      ensures Valid()
      ensures Snapshot() == LeftHandStep(sqrt, old(Snapshot()), lm)
    {
      var pinch := PlanarPinch(sqrt, lm);
      if pinch < 0.05 {
        isRedMode := true;
        modelColor := Red;
      } else {
        isRedMode := false;
        modelColor := White;
      }
      if lastLeftHandPos.Some? {
        var dx := Abs(handX - lastLeftHandPos.value.0);
        if dx > 0.02 {
          modelOpacity := modelOpacity - dx * 3.0;
          modelOpacity := Clamp(modelOpacity, 0.1, 1.0);
        }
      }
      if lastLeftHandPos.Some? {
        var dx := Abs(handX - lastLeftHandPos.value.0);
        if dx < 0.01 {
          modelOpacity := modelOpacity + 0.02;
          modelOpacity := Min(modelOpacity, 1.0);
        }
      }
      lastLeftHandPos := Some((handX, handY));
    }

    /** `process_hand_tracking`: nothing happens with hand control off or a
        failed camera read; a frame with hands runs each through its handler in
        report order; a frame without hands forgets both palm positions. */
    method ProcessHandTracking(sqrt: real -> real, frame: Option<seq<HandObservation>>)
      requires IsSqrt(sqrt) && Valid()
      modifies this`cameraRotationX, this`cameraRotationY, this`cameraDistance, this`lastRightHandPos
      modifies this`isRedMode, this`modelColor, this`modelOpacity, this`lastLeftHandPos
      ensures Valid()
      ensures !handControlEnabled || frame.None? ==> Snapshot() == old(Snapshot())
      ensures handControlEnabled && frame.Some? && frame.value == [] ==> Snapshot() == Forget(old(Snapshot()))
      ensures handControlEnabled && frame.Some? && frame.value != [] ==>
        Snapshot() == AllHands(sqrt, old(Snapshot()), frame.value)
    {
      if !handControlEnabled || frame.None? {
        return;
      }
      var hands := frame.value;
      if hands == [] {
        lastRightHandPos := None;
        lastLeftHandPos := None;
        return;
      }
      var i := 0;
      while i < |hands|
        modifies this`cameraRotationX, this`cameraRotationY, this`cameraDistance, this`lastRightHandPos
        modifies this`isRedMode, this`modelColor, this`modelOpacity, this`lastLeftHandPos
        invariant 0 <= i <= |hands|
        invariant Valid()
        invariant Snapshot() == AllHands(sqrt, old(Snapshot()), hands[..i])
      {
        assert hands[..i + 1][..i] == hands[..i];
        var lm := hands[i].landmarks;
        var palm := lm[MiddleMcp];
        if IsRightHand(hands[i]) {
          ProcessRightHand(sqrt, lm, palm.x, palm.y);
        } else {
          ProcessLeftHand(sqrt, lm, palm.x, palm.y);
        }
        i := i + 1;
      }
      assert hands[..i] == hands;
    }

    /** `handle_mouse_input`: while the button is held and a previous position
        exists, rotate by half the cursor's move; remember the cursor only
        while the button is held. */
    method HandleMouseInput(pressed: bool, pos: (int, int))
      requires Valid()
      modifies this`cameraRotationX, this`cameraRotationY, this`lastMousePos
      ensures Valid()
      ensures pressed && old(lastMousePos).Some? ==>
        cameraRotationY == old(cameraRotationY) + (pos.0 - old(lastMousePos).value.0) as real * 0.5 &&
        cameraRotationX == old(cameraRotationX) + (pos.1 - old(lastMousePos).value.1) as real * 0.5
      ensures !(pressed && old(lastMousePos).Some?) ==>
        cameraRotationY == old(cameraRotationY) && cameraRotationX == old(cameraRotationX)
      ensures lastMousePos == if pressed then Some(pos) else None
    {
      if pressed {
        if lastMousePos.Some? {
          var dx := pos.0 - lastMousePos.value.0;
          var dy := pos.1 - lastMousePos.value.1;
          cameraRotationY := cameraRotationY + dx as real * 0.5;
          cameraRotationX := cameraRotationX + dy as real * 0.5;
        }
      }
      lastMousePos := if pressed then Some(pos) else None;
    }

    /** The key handlers of `run`; the result says whether the loop keeps running. */
    method HandleKey(key: VariantKey) returns (running: bool)
      requires Valid()
      modifies this`showCamera, this`handControlEnabled, this`cameraDistance, this`cameraRotationX, this`cameraRotationY
      ensures Valid()
      ensures running == (key != Quit && key != Escape)
      ensures showCamera == (if key == KeyC then !old(showCamera) else old(showCamera))
      ensures handControlEnabled == (if key == KeyH then !old(handControlEnabled) else old(handControlEnabled))
      ensures key == KeyR ==> cameraDistance == 15.0 && cameraRotationX == 0.0 && cameraRotationY == 0.0
      ensures key != KeyR ==>
        cameraDistance == old(cameraDistance) && cameraRotationX == old(cameraRotationX) && cameraRotationY == old(cameraRotationY)
    {
      running := true;
      match key {
        case Quit => running := false;
        case Escape => running := false;
        case KeyC => showCamera := !showCamera;
        case KeyH => handControlEnabled := !handControlEnabled;
        case KeyR =>
          cameraDistance := 15.0;
          cameraRotationX := 0.0;
          cameraRotationY := 0.0;
        case OtherKey =>
      }
    }

    /** The mouse wheel zooms by one unit per notch, clamped to `[2, 50]`. */
    method HandleWheel(y: int)
      requires Valid()
      modifies this`cameraDistance
      ensures Valid()
      ensures cameraDistance == Clamp(old(cameraDistance) - y as real, 2.0, 50.0)
    {
      cameraDistance := Clamp(cameraDistance - y as real, 2.0, 50.0);
    }
  }
}
