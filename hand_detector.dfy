/** The hand detector of `src/hand_tracking/hand_detector.py`: for every hand
    MediaPipe reports it keeps eight named landmarks in normalised and pixel
    coordinates, a centre between the wrist and the middle-finger base, and an
    approximate area; the primary hand is the most confident one. */
module HandDetector {
  import opened RealArith
  import opened Geometry
  import opened Wrappers
  import opened Landmarks

  /** The dictionary keys `'wrist'`, `'thumb_tip'`, `'index_tip'`,
      `'middle_tip'`, `'ring_tip'`, `'pinky_tip'`, `'index_mcp'` and
      `'middle_mcp'` of the landmarks kept. */
  datatype LandmarkName =
    | WristName | ThumbTipName | IndexTipName | MiddleTipName
    | RingTipName | PinkyTipName | IndexMcpName | MiddleMcpName

  /** The MediaPipe index of each kept landmark. */
  function IndexOf(n: LandmarkName): (i: nat)
    ensures i < 21
  {
    match n
    case WristName => Wrist
    case ThumbTipName => ThumbTip
    case IndexTipName => IndexTip
    case MiddleTipName => MiddleTip
    case RingTipName => RingTip
    case PinkyTipName => PinkyTip
    case IndexMcpName => IndexMcp
    case MiddleMcpName => MiddleMcp
  }

  /** The kept landmarks in the order the dictionary lists them. */
  const Important: seq<LandmarkName> := [
    WristName, ThumbTipName, IndexTipName, MiddleTipName,
    RingTipName, PinkyTipName, IndexMcpName, MiddleMcpName]

  /** `math.pi` as a double. */
  const Pi := 3.141592653589793

  /** One kept landmark: its normalised coordinates and its pixel. */
  datatype LandmarkEntry = LandmarkEntry(normalized: (real, real), pixel: (int, int))

  /** A landmark of an image `width` pixels wide and `height` high; the pixel
      coordinates are truncated like Python's `int`. */
  function Entry(p: Vec3, height: nat, width: nat): (e: LandmarkEntry)
    ensures e.normalized == (p.x, p.y)
    ensures 0.0 <= p.x ==> e.pixel.0 as real <= p.x * width as real < e.pixel.0 as real + 1.0
    ensures 0.0 <= p.y ==> e.pixel.1 as real <= p.y * height as real < e.pixel.1 as real + 1.0
  {
    LandmarkEntry((p.x, p.y), (Trunc(p.x * width as real), Trunc(p.y * height as real)))
  }

  /** A point inside the image lands on one of its pixels. */
  lemma EntryPixelInImage(p: Vec3, height: nat, width: nat)
    requires 0.0 <= p.x < 1.0 && 0.0 <= p.y < 1.0
    ensures 0 <= Entry(p, height, width).pixel.0 && (width > 0 ==> Entry(p, height, width).pixel.0 < width)
    ensures 0 <= Entry(p, height, width).pixel.1 && (height > 0 ==> Entry(p, height, width).pixel.1 < height)
  {
    ScaledPixel(p.x, width);
    ScaledPixel(p.y, height);
  }

  /** A coordinate in `[0, 1)` scaled to a side of `n` pixels truncates to a pixel of that side. */
  lemma ScaledPixel(c: real, n: nat)
    requires 0.0 <= c < 1.0
    ensures 0 <= Trunc(c * n as real) && (n > 0 ==> Trunc(c * n as real) < n)
  {
    var v := c * n as real;
    assert 0.0 <= v by {
      MulNonNeg(c, n as real);
    }
    if n > 0 {
      assert v < n as real by {
        MulLtOne(c, n as real);
      }
    }
  }

  lemma MulNonNeg(a: real, b: real)
    requires 0.0 <= a && 0.0 <= b
    ensures 0.0 <= a * b
  {
  }

  lemma MulLtOne(a: real, b: real)
    requires a < 1.0 && 0.0 < b
    ensures a * b < b
  {
    assert b - a * b == (1.0 - a) * b;
  }

  /** `m` holds every important landmark of `lm`, under its name. */
  predicate ExtractedFrom(m: map<LandmarkName, LandmarkEntry>, lm: HandLandmarks, height: nat, width: nat) {
    forall n: LandmarkName :: n in m && m[n] == Entry(lm[IndexOf(n)], height, width)
  }

  /** `_extract_landmarks`: one entry per important landmark. */
  method ExtractLandmarks(lm: HandLandmarks, height: nat, width: nat) returns (m: map<LandmarkName, LandmarkEntry>)
    ensures ExtractedFrom(m, lm, height, width)
  {
    m := map[];
    var i := 0;
    while i < |Important|
      invariant 0 <= i <= |Important|
      invariant forall k :: 0 <= k < i ==> Important[k] in m && m[Important[k]] == Entry(lm[IndexOf(Important[k])], height, width)
    {
      var name := Important[i];
      var idx := IndexOf(name);
      m := m[name := Entry(lm[idx], height, width)];
      i := i + 1;
    }
    forall n: LandmarkName
      ensures n in m && m[n] == Entry(lm[IndexOf(n)], height, width)
    {
      var k := match n
        case WristName => 0 case ThumbTipName => 1 case IndexTipName => 2 case MiddleTipName => 3
        case RingTipName => 4 case PinkyTipName => 5 case IndexMcpName => 6 case MiddleMcpName => 7;
      assert Important[k] == n;
    }
  }

  /** `_calculate_hand_center`: the midpoint of the wrist and the middle-finger
      base when both are known, otherwise the image centre. */
  function HandCenter(m: map<LandmarkName, LandmarkEntry>): (c: (real, real))
    ensures !(WristName in m && MiddleMcpName in m) ==> c == (0.5, 0.5)
    ensures WristName in m && MiddleMcpName in m ==>
      var w, b := m[WristName].normalized, m[MiddleMcpName].normalized;
      c.0 - w.0 == b.0 - c.0 && c.1 - w.1 == b.1 - c.1 &&
      Min(w.0, b.0) <= c.0 <= Max(w.0, b.0) && Min(w.1, b.1) <= c.1 <= Max(w.1, b.1)
  {
    if WristName in m && MiddleMcpName in m then
      var wrist := m[WristName].normalized;
      var middleMcp := m[MiddleMcpName].normalized;
      ((wrist.0 + middleMcp.0) / 2.0, (wrist.1 + middleMcp.1) / 2.0)
    else (0.5, 0.5)
  }

  /** `_calculate_hand_area`: the circle whose diameter runs from the wrist to
      the middle fingertip, so a quarter of pi times their squared distance;
      0.01 when either is missing. */
  function HandArea(sqrt: real -> real, m: map<LandmarkName, LandmarkEntry>): (a: real)
    requires IsSqrt(sqrt)
    ensures WristName in m && MiddleTipName in m ==>
      a == Pi * SqDist2(m[MiddleTipName].normalized, m[WristName].normalized) / 4.0
    ensures !(WristName in m && MiddleTipName in m) ==> a == 0.01
    ensures 0.0 <= a
  {
    if WristName in m && MiddleTipName in m then
      var wrist := m[WristName].normalized;
      var middleTip := m[MiddleTipName].normalized;
      var dist := sqrt(Square(middleTip.0 - wrist.0) + Square(middleTip.1 - wrist.1));
      assert dist * dist == SqDist2(middleTip, wrist);
      Pi * Square(dist / 2.0)
    else 0.01
  }

  /** For an extracted hand the centre is the midpoint of landmarks 0 and 9,
      and the area comes from landmarks 0 and 12. */
  lemma ExtractedCenterAndArea(sqrt: real -> real, m: map<LandmarkName, LandmarkEntry>, lm: HandLandmarks, height: nat, width: nat)
    requires IsSqrt(sqrt) && ExtractedFrom(m, lm, height, width)
    ensures HandCenter(m) == ((lm[Wrist].x + lm[MiddleMcp].x) / 2.0, (lm[Wrist].y + lm[MiddleMcp].y) / 2.0)
    ensures HandArea(sqrt, m) == Pi * SqDist2((lm[MiddleTip].x, lm[MiddleTip].y), (lm[Wrist].x, lm[Wrist].y)) / 4.0
  {
  }

  /** What MediaPipe gives for one hand: its landmarks and its handedness label and score. */
  datatype RawHand = RawHand(landmarks: HandLandmarks, handedness: string, confidence: real)

  datatype HandData = HandData(
    handedness: string, confidence: real, landmarks: map<LandmarkName, LandmarkEntry>,
    center: (real, real), area: real)

  datatype Detection = Detection(hands: seq<HandData>, numHands: nat)

  /** `detect_hands` once MediaPipe has run: `None` when processing failed or
      found no hand, otherwise one record per hand, in order, and their count. */
  method DetectHands(sqrt: real -> real, frame: Option<seq<RawHand>>, height: nat, width: nat) returns (r: Option<Detection>)
    requires IsSqrt(sqrt)
    ensures r.None? <==> frame.None? || frame.value == []
    ensures r.Some? ==> r.value.numHands == |r.value.hands| == |frame.value|
    ensures r.Some? ==> forall k :: 0 <= k < |r.value.hands| ==>
      var h, raw := r.value.hands[k], frame.value[k];
      h.handedness == raw.handedness && h.confidence == raw.confidence &&
      ExtractedFrom(h.landmarks, raw.landmarks, height, width) &&
      h.center == HandCenter(h.landmarks) && h.area == HandArea(sqrt, h.landmarks)
  {
    if frame.None? || frame.value == [] {
      return None;
    }
    var raws := frame.value;
    var hands: seq<HandData> := [];
    var i := 0;
    while i < |raws|
      invariant 0 <= i <= |raws| && |hands| == i
      invariant forall k :: 0 <= k < i ==>
        var h, raw := hands[k], raws[k];
        h.handedness == raw.handedness && h.confidence == raw.confidence &&
        ExtractedFrom(h.landmarks, raw.landmarks, height, width) &&
        h.center == HandCenter(h.landmarks) && h.area == HandArea(sqrt, h.landmarks)
    {
      var landmarks := ExtractLandmarks(raws[i].landmarks, height, width);
      var center := HandCenter(landmarks);
      var area := HandArea(sqrt, landmarks);
      hands := hands + [HandData(raws[i].handedness, raws[i].confidence, landmarks, center, area)];
      i := i + 1;
    }
    return Some(Detection(hands, |hands|));
  }

  /** Python's `max` with a key: the first hand of greatest confidence. */
  function FirstMostConfident(hands: seq<HandData>): (i: nat)
    requires hands != []
    ensures i < |hands|
    ensures forall k :: 0 <= k < |hands| ==> hands[k].confidence <= hands[i].confidence
    ensures forall k :: 0 <= k < i ==> hands[k].confidence < hands[i].confidence
  {
    if |hands| == 1 then 0
    else
      var j := FirstMostConfident(hands[..|hands| - 1]);
      if hands[|hands| - 1].confidence > hands[j].confidence then |hands| - 1 else j
  }

  /** `get_primary_hand_position`: the centre of the first most confident
      hand, or `None` when nothing was detected. The detection is the one
      `DetectHands` produces, whose count is its number of hands. */
  function PrimaryHandPosition(data: Option<Detection>): (r: Option<(real, real)>)
    requires data.Some? ==> data.value.numHands == |data.value.hands|
    ensures r.Some? <==> data.Some? && data.value.numHands > 0
    ensures r.Some? ==> exists i :: (0 <= i < |data.value.hands| &&
      r.value == data.value.hands[i].center &&
      (forall k :: 0 <= k < |data.value.hands| ==> data.value.hands[k].confidence <= data.value.hands[i].confidence) &&
      (forall k :: 0 <= k < i ==> data.value.hands[k].confidence < data.value.hands[i].confidence))
  {
    if data.Some? && data.value.numHands > 0 then
      var i := FirstMostConfident(data.value.hands);
      Some(data.value.hands[i].center)
    else None
  }
}
