/** The dual-hand viewer `BasteriaViewerMediaPipe` of `basteria_mediapipe.py`:
    the four-mode cycle with its touch gesture and cooldown, the right hand's
    camera control, the left hand's per-mode effects, and the mouse, keyboard
    and wheel handlers of the main loop. Camera frames arrive as the hands
    MediaPipe reported; the clock, the mouse and the random fragment poses are
    parameters. */
module BasteriaViewer {
  import opened RealArith
  import opened Geometry
  import opened Wrappers
  import opened Landmarks
  import opened MathUtils
  import opened BasteriaGestures
  import opened BasteriaModels

  // ---------------------------------------------------------------- modes

  datatype Mode = Basteria | Adn | Enzyme | Pcr

  /** The mode list, in cycling order. */
  const States: seq<Mode> := [Basteria, Adn, Enzyme, Pcr]

  /** Frames with a right hand that must pass before the next mode change. */
  const CooldownFrames := 45

  /** `(current_state_index + 1) % len(states)`. */
  function NextIndex(i: nat): (j: nat)
    ensures j < |States|
  {
    (i + 1) % |States|
  }

  /** The index after `k` mode changes. */
  function Advance(i: nat, k: nat): nat
    decreases k
  {
    if k == 0 then i else NextIndex(Advance(i, k - 1))
  }

  /** `k` mode changes move `k` places round the list of four. */
  lemma {:induction false} AdvanceModular(i: nat, k: nat)
    requires i < |States|
    ensures Advance(i, k) == (i + k) % |States|
    decreases k
  {
    if k > 0 {
      AdvanceModular(i, k - 1);
      var m := (i + k - 1) % 4;
      assert i + k - 1 == ((i + k - 1) / 4) * 4 + m;
      assert i + k == ((i + k - 1) / 4) * 4 + (m + 1);
      if m == 3 {
        assert (i + k) % 4 == 0;
      } else {
        assert (i + k) % 4 == m + 1;
      }
    }
  }

  /** The cycle runs BASTERIA, ADN, ENZYME, PCR and back, so four changes
      return to the mode they started from. */
  lemma CycleOrder(i: nat)
    requires i < |States|
    ensures States[NextIndex(0)] == Adn && States[NextIndex(1)] == Enzyme
    ensures States[NextIndex(2)] == Pcr && States[NextIndex(3)] == Basteria
    ensures Advance(i, 4) == i
  {
    AdvanceModular(i, 4);
  }

  // ---------------------------------------------------------------- the touch gate

  /** Whether the right index tip touches the left wrist in this frame. */
  predicate Touching(sqrt: real -> real, right: Option<HandLandmarks>, left: Option<HandLandmarks>)
    requires IsSqrt(sqrt)
  {
    right.Some? && left.Some? && TouchDetected(sqrt, right.value, left.value)
  }

  /** One frame of the gate and the right-hand drain: whether the mode changes,
      and the cooldown after the frame. A change sets the cooldown to 45; a
      right hand then takes one off while it is positive. */
  function CooldownStep(cooldown: int, touching: bool, rightPresent: bool): (r: (bool, int)) {
    var fired := cooldown == 0 && touching;
    var c := if fired then CooldownFrames else cooldown;
    (fired, if rightPresent && c > 0 then c - 1 else c)
  }

  /** The gate fires exactly when the cooldown is 0 and the hands touch; the
      cooldown stays in `[0, 45]`; a change leaves 44 behind since the touching
      right hand drains once; without a right hand the cooldown is held. */
  lemma CooldownStepProperties(cooldown: int, touching: bool, rightPresent: bool)
    requires 0 <= cooldown <= CooldownFrames
    ensures CooldownStep(cooldown, touching, rightPresent).0 <==> cooldown == 0 && touching
    ensures 0 <= CooldownStep(cooldown, touching, rightPresent).1 <= CooldownFrames
    ensures CooldownStep(cooldown, touching, rightPresent).0 && rightPresent ==>
      CooldownStep(cooldown, touching, rightPresent).1 == CooldownFrames - 1
    ensures !CooldownStep(cooldown, touching, rightPresent).0 ==>
      CooldownStep(cooldown, touching, rightPresent).1 ==
        if rightPresent then Max(0.0, (cooldown - 1) as real) as int else cooldown
  {
  }

  /** What one frame brings to the gate. */
  datatype HandsSeen = HandsSeen(touching: bool, rightPresent: bool)

  /** The mode changes over a run of frames starting from a cooldown. */
  function Transitions(cooldown: int, frames: seq<HandsSeen>): nat
    decreases |frames|
  {
    if frames == [] then 0
    else
      var step := CooldownStep(cooldown, frames[0].touching, frames[0].rightPresent);
      (if step.0 then 1 else 0) + Transitions(step.1, frames[1..])
  }

  /** While the cooldown outlasts the frames, no touch changes the mode. */
  lemma {:induction false} NoTransitionWhileCooling(cooldown: int, frames: seq<HandsSeen>)
    requires |frames| <= cooldown
    ensures Transitions(cooldown, frames) == 0
    decreases |frames|
  {
    if frames != [] {
      NoTransitionWhileCooling(CooldownStep(cooldown, frames[0].touching, frames[0].rightPresent).1, frames[1..]);
    }
  }

  /** The debounce: a touch that changes the mode is followed by at least 44
      frames in which no touch changes it again, however long it is held. */
  lemma Debounce(first: HandsSeen, rest: seq<HandsSeen>)
    requires first.touching && first.rightPresent && |rest| <= CooldownFrames - 1
    ensures Transitions(0, [first] + rest) == 1
  {
    assert ([first] + rest)[1..] == rest;
    NoTransitionWhileCooling(CooldownFrames - 1, rest);
  }

  // ---------------------------------------------------------------- hands of a frame

  /** The landmarks of the last hand of the given side; the loop over the
      detections lets a later hand of the same side replace an earlier one. */
  function LastHand(hands: seq<HandObservation>, right: bool): Option<HandLandmarks> {
    if hands == [] then None
    else if IsRightHand(hands[|hands| - 1]) == right then Some(hands[|hands| - 1].landmarks)
    else LastHand(hands[..|hands| - 1], right)
  }

  /** `LastHand` is `None` exactly when no hand of that side was seen, and
      otherwise the landmarks of a hand of that side with none of that side after it. */
  lemma {:induction false} LastHandIsLast(hands: seq<HandObservation>, right: bool)
    ensures LastHand(hands, right).None? <==> forall i :: 0 <= i < |hands| ==> IsRightHand(hands[i]) != right
    ensures LastHand(hands, right).Some? ==>
      exists i :: 0 <= i < |hands| && IsRightHand(hands[i]) == right &&
        hands[i].landmarks == LastHand(hands, right).value &&
        forall j :: i < j < |hands| ==> IsRightHand(hands[j]) != right
  {
    if hands != [] {
      var init := hands[..|hands| - 1];
      LastHandIsLast(init, right);
      if IsRightHand(hands[|hands| - 1]) != right {
        assert forall i :: 0 <= i < |init| ==> init[i] == hands[i];
        if LastHand(init, right).Some? {
          var i :| 0 <= i < |init| && IsRightHand(init[i]) == right &&
            init[i].landmarks == LastHand(init, right).value &&
            forall j :: i < j < |init| ==> IsRightHand(init[j]) != right;
          assert hands[i] == init[i];
        }
      }
    }
  }

  /** The loop of `process_hand_tracking` over the detections: it keeps the
      last right hand and the last left hand. */
  method CollectHands(hands: seq<HandObservation>) returns (right: Option<HandLandmarks>, left: Option<HandLandmarks>)
    ensures right == LastHand(hands, true) && left == LastHand(hands, false)
  {
    right, left := None, None;
    var i := 0;
    while i < |hands|
      invariant 0 <= i <= |hands|
      invariant right == LastHand(hands[..i], true) && left == LastHand(hands[..i], false)
    {
      assert hands[..i + 1][..i] == hands[..i];
      if IsRightHand(hands[i]) {
        right := Some(hands[i].landmarks);
      } else {
        left := Some(hands[i].landmarks);
      }
      i := i + 1;
    }
    assert hands[..i] == hands;
  }

  /** The hand separation of the DNA mode: the `interp` of the two hands' gap
      when both positions exist, 0 otherwise. */
  function HandSeparationOf(rightPos: Option<(real, real)>, leftPos: Option<(real, real)>): (f: real)
    ensures 0.0 <= f <= 1.0
    ensures rightPos.None? || leftPos.None? ==> f == 0.0
  {
    if rightPos.Some? && leftPos.Some? then HandSeparation(rightPos.value, leftPos.value) else 0.0
  }

  function PositionOf(lm: Option<HandLandmarks>): Option<(real, real)> {
    if lm.Some? then Some(MeanPosition(lm.value)) else None
  }

  // ---------------------------------------------------------------- the right hand's camera

  /** The part of the view the right hand steers. */
  datatype CameraPose = CameraPose(rotX: real, rotY: real, lastHand: Option<(real, real)>, distance: real)

  /** `process_right_hand` past its cooldown check: rotate by 150 times the
      hand's movement since the remembered position, remember the position,
      and zoom toward the pinch. */
  function RightHandStep(sqrt: real -> real, p: CameraPose, lm: HandLandmarks, handX: real, handY: real): (r: CameraPose)
    requires IsSqrt(sqrt)
    ensures r.lastHand == Some((handX, handY))
    ensures p.lastHand.None? || p.lastHand == Some((handX, handY)) ==> r.rotX == p.rotX && r.rotY == p.rotY
    ensures r.distance == ZoomStep(p.distance, ZoomTarget(ZoomLevel(PinchDistance(sqrt, lm))))
  {
    var turn := if p.lastHand.Some? then ((handY - p.lastHand.value.1) * 150.0, (handX - p.lastHand.value.0) * 150.0) else (0.0, 0.0);
    CameraPose(p.rotX + turn.0, p.rotY + turn.1, Some((handX, handY)), ZoomStep(p.distance, ZoomTarget(ZoomLevel(PinchDistance(sqrt, lm)))))
  }

  /** The rotation follows the hand: over two frames it adds up to 150 times
      the hand's offset from the position remembered before them. */
  lemma RightHandRotationTelescopes(sqrt: real -> real, p: CameraPose, lm1: HandLandmarks, x1: real, y1: real, lm2: HandLandmarks, x2: real, y2: real)
    requires IsSqrt(sqrt) && p.lastHand.Some?
    ensures var q := RightHandStep(sqrt, RightHandStep(sqrt, p, lm1, x1, y1), lm2, x2, y2);
      q.rotY == p.rotY + (x2 - p.lastHand.value.0) * 150.0 && q.rotX == p.rotX + (y2 - p.lastHand.value.1) * 150.0
  {
  }

  /** The look after the left hand: the bacteria mode takes it from the pinch,
      every other mode, and a frame without a left hand, keep it. */
  function LeftLook(sqrt: real -> real, mode: Mode, left: Option<HandLandmarks>, look: BacteriaLook): (r: BacteriaLook)
    requires IsSqrt(sqrt)
    ensures left.None? || mode != Basteria ==> r == look
    ensures left.Some? && mode == Basteria ==> r.blend == r.shake && r.color == Rgb(1.0, 1.0 - r.shake, 1.0 - r.shake)
  {
    if left.Some? && mode == Basteria then BacteriaEffect(BacteriaFactor(PinchDistance(sqrt, left.value))) else look
  }

  /** The pose after a frame's hands: a mode change tilts the camera to 30
      degrees and starts the cooldown, which then keeps the right hand from
      steering; otherwise a right hand past its cooldown steers. */
  function HandsPose(sqrt: real -> real, p: CameraPose, cooldown: int, right: Option<HandLandmarks>, left: Option<HandLandmarks>): (r: CameraPose)
    requires IsSqrt(sqrt)
    ensures cooldown == 0 && Touching(sqrt, right, left) ==> r == p.(rotX := 30.0)
    ensures right.None? || cooldown > 0 ==> r == p
    ensures right.Some? && cooldown == 0 && !Touching(sqrt, right, left) ==> r.lastHand == PositionOf(right)
  {
    if cooldown == 0 && Touching(sqrt, right, left) then p.(rotX := 30.0)
    else if right.Some? && cooldown == 0 then RightHandStep(sqrt, p, right.value, MeanPosition(right.value).0, MeanPosition(right.value).1)
    else p
  }

  // ---------------------------------------------------------------- main-loop helpers

  const Speeds: seq<real> := [0.1, 0.2, 0.5, 1.0]

  /** Python's `list.index`: the first position holding `v`. */
  function IndexOf(s: seq<real>, v: real): (i: nat)
    requires v in s
    ensures i < |s| && s[i] == v
    ensures forall j :: 0 <= j < i ==> s[j] != v
  {
    if s[0] == v then 0 else 1 + IndexOf(s[1..], v)
  }

  /** Key A: the speed after the current one in the list, or the third when the
      current speed is not in the list (its index is taken to be 1). */
  function NextSpeed(speed: real): (r: real)
    ensures r in Speeds
  {
    var current := if speed in Speeds then IndexOf(Speeds, speed) else 1;
    Speeds[(current + 1) % |Speeds|]
  }

  /** Key A walks 0.1, 0.2, 0.5, 1.0 and back to 0.1. */
  lemma NextSpeedTable()
    ensures NextSpeed(0.1) == 0.2 && NextSpeed(0.2) == 0.5 && NextSpeed(0.5) == 1.0 && NextSpeed(1.0) == 0.1
  {
    assert IndexOf(Speeds, 0.1) == 0;
    assert Speeds[1..] == [0.2, 0.5, 1.0];
    assert IndexOf(Speeds, 0.2) == 1;
    assert Speeds[1..][1..] == [0.5, 1.0];
    assert IndexOf(Speeds, 0.5) == 2;
    assert Speeds[1..][1..][1..] == [1.0];
    assert IndexOf(Speeds, 1.0) == 3;
  }

  /** Four presses bring a listed speed back; an unlisted speed goes to 0.5. */
  lemma NextSpeedCycle(speed: real)
    ensures speed !in Speeds ==> NextSpeed(speed) == 0.5
    ensures speed in Speeds ==> NextSpeed(NextSpeed(NextSpeed(NextSpeed(speed)))) == speed
  {
    NextSpeedTable();
  }

  /** `update_auto_rotation`: add the speed and wrap once past 360. */
  function AutoRotated(rotationY: real, speed: real): (r: real) {
    var next := rotationY + speed;
    if next >= 360.0 then next - 360.0 else next
  }

  /** The wrap keeps an angle of one turn within one turn and changes it by the
      speed modulo 360; it subtracts only one turn, so an angle pushed beyond two
      turns by the hands stays beyond one. */
  lemma AutoRotatedRange(rotationY: real, speed: real)
    ensures AutoRotated(rotationY, speed) == rotationY + speed || AutoRotated(rotationY, speed) == rotationY + speed - 360.0
    ensures 0.0 <= rotationY < 360.0 && 0.0 <= speed < 360.0 ==> 0.0 <= AutoRotated(rotationY, speed) < 360.0
    ensures rotationY + speed >= 720.0 ==> AutoRotated(rotationY, speed) >= 360.0
  {
  }

  datatype Key = Escape | KeyC | KeyH | KeyR | KeyA | KeyF | OtherKey

  // ---------------------------------------------------------------- the viewer

  class Viewer {
    var cameraDistance: real
    var cameraRotationX: real
    var cameraRotationY: real
    var autoRotationSpeed: real
    var fullscreen: bool
    var handControlEnabled: bool
    var showCamera: bool
    var handSeparation: real
    var gestureCooldown: int
    var leftHandHistory: seq<Sample>
    var leftHandPresent: bool
    var lastRightHandPos: Option<(real, real)>
    var lastMousePos: Option<(int, int)>
    var shakeIntensity: real
    var colorBlendFactor: real
    var modelOpacity: real
    var modelColor: Rgb
    var currentStateIndex: nat
    var state: Mode
    const adn: ADNModel
    const enzyme: EnzymeModel
    const pcr: PCRModel
    const helicase: HelicaseModel

    /** What every handler keeps: the mode agrees with its index, the cooldown
        and the history are bounded, the camera distance stays in `[2, 50]`, the
        auto speed is one of the four, the effect factors stay in range, and so
        do the fragment count and the enzyme's progress. */
    ghost predicate Valid()
      reads this, pcr, enzyme
    {
      && currentStateIndex < |States| && state == States[currentStateIndex]
      && 0 <= gestureCooldown <= CooldownFrames
      && |leftHandHistory| <= HistoryCapacity
      && 2.0 <= cameraDistance <= 50.0
      && autoRotationSpeed in Speeds
      && 0.0 <= shakeIntensity <= 1.0 && colorBlendFactor == shakeIntensity
      && 0.4 <= modelOpacity <= 1.0
      && 0.0 <= handSeparation <= 1.0
      && pcr.Valid()
      && 0.0 <= enzyme.attachmentProgress <= 1.0
    }

    function Pose(): CameraPose
      reads this
    {
      CameraPose(cameraRotationX, cameraRotationY, lastRightHandPos, cameraDistance)
    }

    function Look(): BacteriaLook
      reads this
    {
      BacteriaLook(shakeIntensity, colorBlendFactor, modelOpacity, modelColor)
    }

    /** The initial state. The arguments say which PLY models loaded. */
    constructor (strand1: Option<seq<Vec3>>, strand2: Option<seq<Vec3>>, enzymeLoaded: bool, fragmentLoaded: bool)
      ensures Valid() && fresh(adn) && fresh(enzyme) && fresh(pcr) && fresh(helicase)
      ensures cameraDistance == 15.0 && cameraRotationX == 0.0 && cameraRotationY == 0.0
      ensures autoRotationSpeed == 0.2 && !fullscreen && handControlEnabled && showCamera
      ensures handSeparation == 0.0 && gestureCooldown == 0 && leftHandHistory == [] && !leftHandPresent
      ensures lastRightHandPos == None && lastMousePos == None
      ensures shakeIntensity == 0.0 && colorBlendFactor == 0.0 && modelOpacity == 1.0 && modelColor == White
      ensures currentStateIndex == 0 && state == Basteria
      ensures adn.strand1Original == strand1 && adn.strand2Original == strand2
      ensures enzyme.hasEnzymeModel == enzymeLoaded && pcr.hasBaseFragment == fragmentLoaded
    {
      cameraDistance := 15.0;
      cameraRotationX := 0.0;
      cameraRotationY := 0.0;
      autoRotationSpeed := 0.2;
      fullscreen := false;
      handControlEnabled := true;
      showCamera := true;
      handSeparation := 0.0;
      gestureCooldown := 0;
      leftHandHistory := [];
      leftHandPresent := false;
      lastRightHandPos := None;
      lastMousePos := None;
      shakeIntensity := 0.0;
      colorBlendFactor := 0.0;
      modelOpacity := 1.0;
      modelColor := White;
      currentStateIndex := 0;
      state := States[0];
      adn := new ADNModel(strand1, strand2);
      enzyme := new EnzymeModel(enzymeLoaded);
      pcr := new PCRModel(fragmentLoaded);
      helicase := new HelicaseModel();
    }

    /** `cycle_state`: move to the next mode, start the cooldown, put the enzyme
        back at rest and tilt the camera to 30 degrees. */
    method CycleState()
      requires Valid()
      modifies this`currentStateIndex, this`state, this`gestureCooldown, this`cameraRotationX, enzyme
      ensures Valid()
      ensures currentStateIndex == NextIndex(old(currentStateIndex)) && state == States[currentStateIndex]
      ensures gestureCooldown == CooldownFrames && cameraRotationX == 30.0
      ensures !enzyme.isAttached && enzyme.attachmentProgress == 0.0 && enzyme.enzymePosition == EnzymeRest
    {
      currentStateIndex := NextIndex(currentStateIndex);
      state := States[currentStateIndex];
      gestureCooldown := CooldownFrames;
      enzyme.isAttached := false;
      enzyme.attachmentProgress := 0.0;
      enzyme.enzymePosition := EnzymeRest;
      cameraRotationX := 30.0;
    }

    /** `process_right_hand`: while cooling down only drain the cooldown;
        otherwise rotate by 150 times the hand's movement since the last frame
        (when there was one), remember the position, and zoom toward the pinch. */
    method ProcessRightHand(sqrt: real -> real, lm: HandLandmarks, handX: real, handY: real)
      requires IsSqrt(sqrt) && Valid()
      modifies this`gestureCooldown, this`cameraRotationX, this`cameraRotationY, this`lastRightHandPos, this`cameraDistance
      ensures Valid()
      ensures old(gestureCooldown) > 0 ==>
        && gestureCooldown == old(gestureCooldown) - 1
        && cameraRotationX == old(cameraRotationX) && cameraRotationY == old(cameraRotationY)
        && lastRightHandPos == old(lastRightHandPos) && cameraDistance == old(cameraDistance)
      ensures old(gestureCooldown) == 0 ==>
        && gestureCooldown == 0
        && cameraRotationY == old(cameraRotationY) + (if old(lastRightHandPos).Some? then (handX - old(lastRightHandPos).value.0) * 150.0 else 0.0)
        && cameraRotationX == old(cameraRotationX) + (if old(lastRightHandPos).Some? then (handY - old(lastRightHandPos).value.1) * 150.0 else 0.0)
        && lastRightHandPos == Some((handX, handY))
        && cameraDistance == ZoomStep(old(cameraDistance), ZoomTarget(ZoomLevel(PinchDistance(sqrt, lm))))
      ensures Pose() == if old(gestureCooldown) > 0 then old(Pose()) else RightHandStep(sqrt, old(Pose()), lm, handX, handY)
    {
      if gestureCooldown > 0 {
        gestureCooldown := gestureCooldown - 1;
        return;
      }
      if lastRightHandPos.Some? {
        var dx := (handX - lastRightHandPos.value.0) * 150.0;
        var dy := (handY - lastRightHandPos.value.1) * 150.0;
        cameraRotationY := cameraRotationY + dx;
        cameraRotationX := cameraRotationX + dy;
      }
      lastRightHandPos := Some((handX, handY));
      var normalized := ZoomLevel(PinchDistance(sqrt, lm));
      var target := ZoomTarget(normalized);
      cameraDistance := ZoomStep(cameraDistance, target);
    }

    /** The PCR part of `process_left_hand`: the wrist joins the history and
        the speed it shows drives the fragment population. */
    method LeftHandPcr(sqrt: real -> real, wrist: Vec3, now: real, poses: (FragmentPose, FragmentPose))
      requires IsSqrt(sqrt) && Valid()
      modifies this`leftHandHistory, pcr
      ensures Valid()
      ensures leftHandHistory == PushSample(old(leftHandHistory), Sample((wrist.x, wrist.y), now))
      ensures pcr.fragments == Updated(old(pcr.fragments), HandVelocity(sqrt, leftHandHistory), poses)
    {
      leftHandHistory := PushSample(leftHandHistory, Sample((wrist.x, wrist.y), now));
      var velocity := HandVelocity(sqrt, leftHandHistory);
      pcr.Update(velocity, poses);
    }

    /** The bacteria part of `process_left_hand`: the pinch ramp sets shake,
        colour blend, opacity and colour. */
    method LeftHandBasteria(pinch: real)
      requires Valid()
      modifies this`shakeIntensity, this`colorBlendFactor, this`modelOpacity, this`modelColor
      ensures Valid()
      ensures var look := BacteriaEffect(BacteriaFactor(pinch));
        shakeIntensity == look.shake && colorBlendFactor == look.blend &&
        modelOpacity == look.opacity && modelColor == look.color
    {
      var factor := BacteriaFactor(pinch);
      var look := BacteriaEffect(factor);
      shakeIntensity := look.shake;
      colorBlendFactor := look.blend;
      modelOpacity := look.opacity;
      modelColor := look.color;
    }

    /** The enzyme part of `process_left_hand`. */
    method LeftHandEnzyme(pinch: real)
      requires Valid()
      modifies enzyme
      ensures Valid()
      ensures enzyme.hasEnzymeModel ==>
        var a := EnzymeAttachment(pinch);
        enzyme.enzymePosition == EnzymePath(a) && enzyme.attachmentProgress == a && enzyme.isAttached == (a >= 0.99)
      ensures !enzyme.hasEnzymeModel ==> unchanged(enzyme)
    {
      enzyme.AttachEnzyme(EnzymeAttachment(pinch));
    }

    /** `process_left_hand`: the PCR mode records the wrist, the bacteria mode
        sets the pinch effects, and the DNA and enzyme modes pass the pinch to
        their models. Each mode reads the 3-D thumb-to-index pinch. */
    method ProcessLeftHand(sqrt: real -> real, lm: HandLandmarks, now: real, poses: (FragmentPose, FragmentPose))
      requires IsSqrt(sqrt) && Valid()
      modifies this`leftHandHistory, this`shakeIntensity, this`colorBlendFactor, this`modelOpacity, this`modelColor
      modifies pcr, adn, enzyme
      ensures Valid()
      ensures state == Pcr ==>
        && leftHandHistory == PushSample(old(leftHandHistory), Sample((lm[Wrist].x, lm[Wrist].y), now))
        && pcr.fragments == Updated(old(pcr.fragments), HandVelocity(sqrt, leftHandHistory), poses)
      ensures state != Pcr ==> leftHandHistory == old(leftHandHistory) && unchanged(pcr)
      ensures state == Basteria ==>
        var look := BacteriaEffect(BacteriaFactor(PinchDistance(sqrt, lm)));
        shakeIntensity == look.shake && colorBlendFactor == look.blend &&
        modelOpacity == look.opacity && modelColor == look.color
      ensures state != Basteria ==>
        shakeIntensity == old(shakeIntensity) && colorBlendFactor == old(colorBlendFactor) &&
        modelOpacity == old(modelOpacity) && modelColor == old(modelColor)
      ensures state == Adn ==>
        var parts := SeparateStrands(adn.strand1Original, adn.strand2Original, StrandSeparation(PinchDistance(sqrt, lm)));
        (parts.Some? ==> adn.strand1Displaced == Some(parts.value.0) && adn.strand2Displaced == Some(parts.value.1)) &&
        (parts.None? ==> unchanged(adn))
      ensures state != Adn ==> unchanged(adn)
      ensures state == Enzyme && enzyme.hasEnzymeModel ==>
        var a := EnzymeAttachment(PinchDistance(sqrt, lm));
        enzyme.enzymePosition == EnzymePath(a) && enzyme.attachmentProgress == a && enzyme.isAttached == (a >= 0.99)
      ensures state != Enzyme || !enzyme.hasEnzymeModel ==> unchanged(enzyme)
      ensures Look() == LeftLook(sqrt, state, Some(lm), old(Look()))
    {
      var pinch := PinchDistance(sqrt, lm);
      if state == Pcr {
        LeftHandPcr(sqrt, lm[Wrist], now, poses);
      }
      if state == Basteria {
        LeftHandBasteria(pinch);
      }
      if state == Adn {
        adn.SeparateStrandsStep(StrandSeparation(pinch));
      } else if state == Enzyme {
        LeftHandEnzyme(pinch);
      }
    }

    /** `process_hand_tracking`. A failed camera read, or a frame in which
        MediaPipe found no hand, changes nothing but the left-hand flag.
        Otherwise the last right and the last left hand of the frame are handed
        on to `ProcessHands`. */
    method ProcessHandTracking(sqrt: real -> real, frame: Option<seq<HandObservation>>, now: real, poses: (FragmentPose, FragmentPose))
      requires IsSqrt(sqrt) && Valid()
      modifies this`leftHandPresent, this`currentStateIndex, this`state, this`gestureCooldown
      modifies this`cameraRotationX, this`cameraRotationY, this`lastRightHandPos, this`cameraDistance
      modifies this`handSeparation, this`leftHandHistory
      modifies this`shakeIntensity, this`colorBlendFactor, this`modelOpacity, this`modelColor
      modifies pcr, adn, enzyme, helicase
      ensures Valid()
      ensures frame.None? || frame.value == [] ==>
        && !leftHandPresent && currentStateIndex == old(currentStateIndex) && gestureCooldown == old(gestureCooldown)
        && cameraDistance == old(cameraDistance) && handSeparation == old(handSeparation)
        && state == old(state) && Pose() == old(Pose()) && leftHandHistory == old(leftHandHistory) && Look() == old(Look())
        && unchanged(pcr, adn, enzyme, helicase)
      ensures frame.Some? && frame.value != [] ==>
        var right, left := LastHand(frame.value, true), LastHand(frame.value, false);
        var step := CooldownStep(old(gestureCooldown), Touching(sqrt, right, left), right.Some?);
        && leftHandPresent == left.Some?
        && currentStateIndex == (if step.0 then NextIndex(old(currentStateIndex)) else old(currentStateIndex))
        && gestureCooldown == step.1
        && Pose() == HandsPose(sqrt, old(Pose()), old(gestureCooldown), right, left)
        && Look() == LeftLook(sqrt, state, left, old(Look()))
        && (left.None? ==> leftHandHistory == old(leftHandHistory) && unchanged(pcr, adn, enzyme))
      ensures frame.Some? && frame.value != [] ==>
        var right, left := LastHand(frame.value, true), LastHand(frame.value, false);
        left.Some? && state == Pcr ==>
            && leftHandHistory == PushSample(old(leftHandHistory), Sample((left.value[Wrist].x, left.value[Wrist].y), now))
            && pcr.fragments == Updated(old(pcr.fragments), HandVelocity(sqrt, leftHandHistory), poses)
      ensures frame.Some? && frame.value != [] ==>
        var right, left := LastHand(frame.value, true), LastHand(frame.value, false);
        left.None? || state != Pcr ==> leftHandHistory == old(leftHandHistory) && unchanged(pcr)
      ensures frame.Some? && frame.value != [] ==>
        var right, left := LastHand(frame.value, true), LastHand(frame.value, false);
        left.Some? && state == Adn ==>
            var parts := SeparateStrands(adn.strand1Original, adn.strand2Original, StrandSeparation(PinchDistance(sqrt, left.value)));
            && (parts.Some? ==> adn.strand1Displaced == Some(parts.value.0) && adn.strand2Displaced == Some(parts.value.1))
            && (parts.None? ==> unchanged(adn))
      ensures frame.Some? && frame.value != [] ==>
        var right, left := LastHand(frame.value, true), LastHand(frame.value, false);
        left.None? || state != Adn ==> unchanged(adn)
      ensures frame.Some? && frame.value != [] ==>
        var right, left := LastHand(frame.value, true), LastHand(frame.value, false);
        left.Some? && state == Enzyme && enzyme.hasEnzymeModel ==>
            var a := EnzymeAttachment(PinchDistance(sqrt, left.value));
            enzyme.enzymePosition == EnzymePath(a) && enzyme.attachmentProgress == a && enzyme.isAttached == (a >= 0.99)
      ensures frame.Some? && frame.value != [] ==>
        var right, left := LastHand(frame.value, true), LastHand(frame.value, false);
        state == Adn ==> handSeparation == HandSeparationOf(PositionOf(right), PositionOf(left))
      ensures frame.Some? && frame.value != [] ==>
        state == Adn ==> helicase.position == Vec3(0.0, 0.0, HelicaseZ(handSeparation))
      ensures frame.Some? && frame.value != [] ==>
        var right, left := LastHand(frame.value, true), LastHand(frame.value, false);
        state != Adn ==> handSeparation == old(handSeparation) && unchanged(helicase)
      ensures frame.Some? && frame.value != [] ==>
        var right, left := LastHand(frame.value, true), LastHand(frame.value, false);
        old(gestureCooldown) == 0 && Touching(sqrt, right, left) && (state != Enzyme || !enzyme.hasEnzymeModel) ==>
          !enzyme.isAttached && enzyme.attachmentProgress == 0.0 && enzyme.enzymePosition == EnzymeRest
      ensures frame.Some? && frame.value != [] ==>
        var right, left := LastHand(frame.value, true), LastHand(frame.value, false);
        !(old(gestureCooldown) == 0 && Touching(sqrt, right, left)) && (left.None? || state != Enzyme || !enzyme.hasEnzymeModel) ==>
          unchanged(enzyme)
    {
      leftHandPresent := false;
      if frame.None? || frame.value == [] {
        return;
      }
      var right, left := CollectHands(frame.value);
      leftHandPresent := left.Some?;
      ProcessHands(sqrt, right, left, now, poses);
    }

    /** The body of `process_hand_tracking` once the hands are known: the touch
        gate may change the mode, the DNA mode measures the hands' separation
        and moves the helicase, and each hand present is processed. The right
        hand zooms only when no transition fired and no cooldown was running. */
    method ProcessHands(sqrt: real -> real, right: Option<HandLandmarks>, left: Option<HandLandmarks>, now: real, poses: (FragmentPose, FragmentPose))
      requires IsSqrt(sqrt) && Valid()
      modifies this`currentStateIndex, this`state, this`gestureCooldown
      modifies this`cameraRotationX, this`cameraRotationY, this`lastRightHandPos, this`cameraDistance
      modifies this`handSeparation, this`leftHandHistory
      modifies this`shakeIntensity, this`colorBlendFactor, this`modelOpacity, this`modelColor
      modifies pcr, adn, enzyme, helicase
      ensures Valid()
      ensures var step := CooldownStep(old(gestureCooldown), Touching(sqrt, right, left), right.Some?);
        && currentStateIndex == (if step.0 then NextIndex(old(currentStateIndex)) else old(currentStateIndex))
        && gestureCooldown == step.1
        && cameraDistance == (if right.Some? && !step.0 && old(gestureCooldown) == 0
                              then ZoomStep(old(cameraDistance), ZoomTarget(ZoomLevel(PinchDistance(sqrt, right.value))))
                              else old(cameraDistance))
      ensures state == Adn ==> handSeparation == HandSeparationOf(PositionOf(right), PositionOf(left))
      ensures state == Adn ==> helicase.position == Vec3(0.0, 0.0, HelicaseZ(handSeparation))
      ensures state != Adn ==> handSeparation == old(handSeparation) && unchanged(helicase)
      ensures Pose() == HandsPose(sqrt, old(Pose()), old(gestureCooldown), right, left)
      ensures Look() == LeftLook(sqrt, state, left, old(Look()))
      ensures left.None? ==> leftHandHistory == old(leftHandHistory) && unchanged(pcr, adn, enzyme)
      ensures left.Some? && state == Pcr ==>
          && leftHandHistory == PushSample(old(leftHandHistory), Sample((left.value[Wrist].x, left.value[Wrist].y), now))
          && pcr.fragments == Updated(old(pcr.fragments), HandVelocity(sqrt, leftHandHistory), poses)
      ensures left.None? || state != Pcr ==> leftHandHistory == old(leftHandHistory) && unchanged(pcr)
      ensures left.Some? && state == Adn ==>
          var parts := SeparateStrands(adn.strand1Original, adn.strand2Original, StrandSeparation(PinchDistance(sqrt, left.value)));
          && (parts.Some? ==> adn.strand1Displaced == Some(parts.value.0) && adn.strand2Displaced == Some(parts.value.1))
          && (parts.None? ==> unchanged(adn))
      ensures left.None? || state != Adn ==> unchanged(adn)
      ensures left.Some? && state == Enzyme && enzyme.hasEnzymeModel ==>
          var a := EnzymeAttachment(PinchDistance(sqrt, left.value));
          enzyme.enzymePosition == EnzymePath(a) && enzyme.attachmentProgress == a && enzyme.isAttached == (a >= 0.99)
      ensures old(gestureCooldown) == 0 && Touching(sqrt, right, left) && (state != Enzyme || !enzyme.hasEnzymeModel) ==>
        !enzyme.isAttached && enzyme.attachmentProgress == 0.0 && enzyme.enzymePosition == EnzymeRest
      ensures !(old(gestureCooldown) == 0 && Touching(sqrt, right, left)) && (left.None? || state != Enzyme || !enzyme.hasEnzymeModel) ==>
        unchanged(enzyme)
    {
      GateAndSeparate(sqrt, right, left);
      ghost var gated := Pose();
      ghost var cooling := gestureCooldown;
      ProcessPresentHands(sqrt, right, left, now, poses);
      assert Pose() == if right.Some? && cooling == 0
        then RightHandStep(sqrt, gated, right.value, MeanPosition(right.value).0, MeanPosition(right.value).1)
        else gated;
    }

    /** The first two steps of `process_hand_tracking`: the touch gate, and in
        the DNA mode the hands' separation. Neither touches the look, the
        right hand's pose beyond the gate's tilt, or the left-hand history. */
    method GateAndSeparate(sqrt: real -> real, right: Option<HandLandmarks>, left: Option<HandLandmarks>)
      requires IsSqrt(sqrt) && Valid()
      modifies this`currentStateIndex, this`state, this`gestureCooldown, this`cameraRotationX, this`handSeparation
      modifies enzyme, helicase
      ensures Valid()
      ensures old(gestureCooldown) == 0 && Touching(sqrt, right, left) ==>
        && currentStateIndex == NextIndex(old(currentStateIndex)) && gestureCooldown == CooldownFrames
        && Pose() == old(Pose()).(rotX := 30.0)
        && !enzyme.isAttached && enzyme.attachmentProgress == 0.0 && enzyme.enzymePosition == EnzymeRest
      ensures !(old(gestureCooldown) == 0 && Touching(sqrt, right, left)) ==>
        currentStateIndex == old(currentStateIndex) && gestureCooldown == old(gestureCooldown) &&
        Pose() == old(Pose()) && unchanged(enzyme)
      ensures state == Adn ==> handSeparation == HandSeparationOf(PositionOf(right), PositionOf(left))
      ensures state == Adn ==> helicase.position == Vec3(0.0, 0.0, HelicaseZ(handSeparation))
      ensures state != Adn ==> handSeparation == old(handSeparation) && unchanged(helicase)
      ensures Look() == old(Look())
    {
      TouchGate(sqrt, right, left);
      if state == Adn {
        UpdateHandSeparation(PositionOf(right), PositionOf(left));
      }
    }

    /** The last two steps of `process_hand_tracking`: the right hand present
        steers the camera, the left hand present drives the current mode. */
    method ProcessPresentHands(sqrt: real -> real, right: Option<HandLandmarks>, left: Option<HandLandmarks>, now: real, poses: (FragmentPose, FragmentPose))
      requires IsSqrt(sqrt) && Valid()
      modifies this`gestureCooldown, this`cameraRotationX, this`cameraRotationY, this`lastRightHandPos, this`cameraDistance
      modifies this`leftHandHistory, this`shakeIntensity, this`colorBlendFactor, this`modelOpacity, this`modelColor
      modifies pcr, adn, enzyme
      ensures Valid()
      ensures right.None? ==> gestureCooldown == old(gestureCooldown) && cameraDistance == old(cameraDistance)
      ensures right.Some? && old(gestureCooldown) > 0 ==>
        gestureCooldown == old(gestureCooldown) - 1 && cameraDistance == old(cameraDistance)
      ensures right.Some? && old(gestureCooldown) == 0 ==>
        gestureCooldown == 0 &&
        cameraDistance == ZoomStep(old(cameraDistance), ZoomTarget(ZoomLevel(PinchDistance(sqrt, right.value))))
      ensures Pose() == if right.Some? && old(gestureCooldown) == 0
        then RightHandStep(sqrt, old(Pose()), right.value, MeanPosition(right.value).0, MeanPosition(right.value).1)
        else old(Pose())
      ensures Look() == LeftLook(sqrt, state, left, old(Look()))
      ensures left.None? ==> leftHandHistory == old(leftHandHistory) && unchanged(pcr, adn, enzyme)
      ensures left.Some? && state == Pcr ==>
          && leftHandHistory == PushSample(old(leftHandHistory), Sample((left.value[Wrist].x, left.value[Wrist].y), now))
          && pcr.fragments == Updated(old(pcr.fragments), HandVelocity(sqrt, leftHandHistory), poses)
      ensures left.None? || state != Pcr ==> leftHandHistory == old(leftHandHistory) && unchanged(pcr)
      ensures left.Some? && state == Adn ==>
          var parts := SeparateStrands(adn.strand1Original, adn.strand2Original, StrandSeparation(PinchDistance(sqrt, left.value)));
          && (parts.Some? ==> adn.strand1Displaced == Some(parts.value.0) && adn.strand2Displaced == Some(parts.value.1))
          && (parts.None? ==> unchanged(adn))
      ensures left.None? || state != Adn ==> unchanged(adn)
      ensures left.Some? && state == Enzyme && enzyme.hasEnzymeModel ==>
          var a := EnzymeAttachment(PinchDistance(sqrt, left.value));
          enzyme.enzymePosition == EnzymePath(a) && enzyme.attachmentProgress == a && enzyme.isAttached == (a >= 0.99)
      ensures left.None? || state != Enzyme || !enzyme.hasEnzymeModel ==> unchanged(enzyme)
    {
      if right.Some? {
        var rightPos := MeanPosition(right.value);
        ProcessRightHand(sqrt, right.value, rightPos.0, rightPos.1);
      }
      if left.Some? {
        ProcessLeftHand(sqrt, left.value, now, poses);
      }
    }

    /** The touch gate of `process_hand_tracking`: with the cooldown at 0 and
        both hands present, a touch of the left wrist by the right index tip
        changes the mode. */
    method TouchGate(sqrt: real -> real, right: Option<HandLandmarks>, left: Option<HandLandmarks>)
      requires IsSqrt(sqrt) && Valid()
      modifies this`currentStateIndex, this`state, this`gestureCooldown, this`cameraRotationX, enzyme
      ensures Valid()
      ensures old(gestureCooldown) == 0 && Touching(sqrt, right, left) ==>
        && currentStateIndex == NextIndex(old(currentStateIndex)) && gestureCooldown == CooldownFrames
        && state == States[currentStateIndex] && cameraRotationX == 30.0
        && !enzyme.isAttached && enzyme.attachmentProgress == 0.0 && enzyme.enzymePosition == EnzymeRest
      ensures !(old(gestureCooldown) == 0 && Touching(sqrt, right, left)) ==>
        currentStateIndex == old(currentStateIndex) && state == old(state) && gestureCooldown == old(gestureCooldown) &&
        cameraRotationX == old(cameraRotationX) && unchanged(enzyme)
    {
      if gestureCooldown == 0 && right.Some? && left.Some? {
        if TouchDetected(sqrt, right.value, left.value) {
          CycleState();
        }
      }
    }

    /** The DNA-mode block of `process_hand_tracking`: the hands' separation,
        and the helicase placed by it. */
    method UpdateHandSeparation(rightPos: Option<(real, real)>, leftPos: Option<(real, real)>)
      requires Valid()
      modifies this`handSeparation, helicase
      ensures Valid()
      ensures handSeparation == HandSeparationOf(rightPos, leftPos)
      ensures helicase.position == Vec3(0.0, 0.0, HelicaseZ(handSeparation))
    {
      handSeparation := HandSeparationOf(rightPos, leftPos);
      helicase.Update(handSeparation);
    }

    /** `update_auto_rotation`. */
    method UpdateAutoRotation()
      requires Valid()
      modifies this`cameraRotationY
      ensures Valid()
      ensures cameraRotationY == AutoRotated(old(cameraRotationY), autoRotationSpeed)
    {
      cameraRotationY := cameraRotationY + autoRotationSpeed;
      if cameraRotationY >= 360.0 {
        cameraRotationY := cameraRotationY - 360.0;
      }
    }

    /** `handle_mouse_input`: while the button is held and a previous position
        exists, rotate by half the relative movement; remember the position only
        while the button is held. */
    method HandleMouseInput(pressed: bool, rel: (int, int), pos: (int, int))
      requires Valid()
      modifies this`cameraRotationX, this`cameraRotationY, this`lastMousePos
      ensures Valid()
      ensures pressed && old(lastMousePos).Some? ==>
        cameraRotationY == old(cameraRotationY) + rel.0 as real * 0.5 &&
        cameraRotationX == old(cameraRotationX) + rel.1 as real * 0.5
      ensures !(pressed && old(lastMousePos).Some?) ==>
        cameraRotationY == old(cameraRotationY) && cameraRotationX == old(cameraRotationX)
      ensures lastMousePos == if pressed then Some(pos) else None
    {
      if pressed {
        if lastMousePos.Some? {
          cameraRotationY := cameraRotationY + rel.0 as real * 0.5;
          cameraRotationX := cameraRotationX + rel.1 as real * 0.5;
        }
      }
      lastMousePos := if pressed then Some(pos) else None;
    }

    /** The key handlers of the main loop; the result says whether it keeps running. */
    method HandleKey(key: Key) returns (running: bool)
      requires Valid()
      modifies this`showCamera, this`handControlEnabled, this`fullscreen, this`autoRotationSpeed
      modifies this`cameraDistance, this`cameraRotationX, this`cameraRotationY, this`modelOpacity
      ensures Valid()
      ensures running == (key != Escape)
      ensures showCamera == (if key == KeyC then !old(showCamera) else old(showCamera))
      ensures handControlEnabled == (if key == KeyH then !old(handControlEnabled) else old(handControlEnabled))
      ensures fullscreen == (if key == KeyF then !old(fullscreen) else old(fullscreen))
      ensures key == KeyR ==> cameraDistance == 15.0 && cameraRotationX == 0.0 && cameraRotationY == 0.0 && modelOpacity == 1.0
      ensures key != KeyR ==>
        cameraDistance == old(cameraDistance) && cameraRotationX == old(cameraRotationX) &&
        cameraRotationY == old(cameraRotationY) && modelOpacity == old(modelOpacity)
      ensures autoRotationSpeed == if key == KeyA then NextSpeed(old(autoRotationSpeed)) else old(autoRotationSpeed)
    {
      running := true;
      match key {
        case Escape => running := false;
        case KeyC => showCamera := !showCamera;
        case KeyH => handControlEnabled := !handControlEnabled;
        case KeyR =>
          cameraDistance := 15.0;
          cameraRotationX := 0.0;
          cameraRotationY := 0.0;
          modelOpacity := 1.0;
        case KeyA => autoRotationSpeed := NextSpeed(autoRotationSpeed);
        case KeyF => fullscreen := !fullscreen;
        case OtherKey =>
      }
    }

    /** The mouse wheel zooms by one unit per notch, clamped to `[2, 50]`. */
    method HandleWheel(y: int)
      requires Valid()
      modifies this`cameraDistance
      ensures Valid()
      ensures cameraDistance == Clamp(old(cameraDistance) - y as real, 2.0, 50.0)
    {
      cameraDistance := Clamp(cameraDistance - y as real, 2.0, 50.0);
    }

    /** `update_pcr`: age the fragments, ten times as fast in a frame without a left hand. */
    method UpdatePcr()
      requires Valid()
      modifies pcr
      ensures Valid()
      ensures pcr.hasBaseFragment ==> pcr.fragments == Tick(old(pcr.fragments), if leftHandPresent then 1 else 10)
      ensures !pcr.hasBaseFragment ==> unchanged(pcr)
    {
      var handStill := !leftHandPresent;
      pcr.UpdateFragments(handStill);
    }

    /** The per-mode update of the main loop after input handling: the DNA mode
        re-derives the strands from the hand separation, which replaces what the
        left pinch set earlier in the frame; the PCR mode ages the fragments a
        second time. */
    method UpdateScene()
      requires Valid()
      modifies adn, pcr
      ensures Valid()
      ensures state == Adn ==>
        var parts := SeparateStrands(adn.strand1Original, adn.strand2Original, handSeparation);
        (parts.Some? ==> adn.strand1Displaced == Some(parts.value.0) && adn.strand2Displaced == Some(parts.value.1)) &&
        (parts.None? ==> unchanged(adn))
      ensures state != Adn ==> unchanged(adn)
      ensures state == Pcr && pcr.hasBaseFragment ==> pcr.fragments == Tick(old(pcr.fragments), if leftHandPresent then 1 else 10)
      ensures state != Pcr || !pcr.hasBaseFragment ==> unchanged(pcr)
    {
      if state == Adn {
        adn.SeparateStrandsStep(handSeparation);
      } else if state == Pcr {
        UpdatePcr();
      }
    }
  }
}
