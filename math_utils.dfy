/** The scalar helpers and the 2-D vector of `src/utils/math_utils.py`. */
module MathUtils {
  import opened RealArith
  import opened Geometry

  function Abs(a: real): real { if a < 0.0 then -a else a }

  /** `max(min_val, min(max_val, value))`. When the bounds are in order the result
      is the nearest point of `[lo, hi]`; when they are not, `lo` wins. */
  function Clamp(value: real, lo: real, hi: real): (r: real)
    ensures lo <= hi ==> lo <= r <= hi
    ensures lo <= value <= hi ==> r == value
    ensures value < lo ==> r == lo
    ensures lo <= hi < value ==> r == hi
    ensures hi < lo ==> r == lo
  {
    Max(lo, Min(hi, value))
  }

  /** Clamping twice is clamping once. */
  lemma ClampIdempotent(value: real, lo: real, hi: real)
    requires lo <= hi
    ensures Clamp(Clamp(value, lo, hi), lo, hi) == Clamp(value, lo, hi)
  {
  }

  /** Clamping never reverses the order of two values. */
  lemma ClampMonotone(v: real, w: real, lo: real, hi: real)
    requires lo <= hi && v <= w
    ensures Clamp(v, lo, hi) <= Clamp(w, lo, hi)
  {
  }

  /** Pixel coordinates scaled by the image size and clamped into `[0, 1]`; a
      dimension that is not positive yields 0 instead of a division. */
  function NormalizeCoordinates(x: real, y: real, width: int, height: int): (r: (real, real))
    ensures 0.0 <= r.0 <= 1.0 && 0.0 <= r.1 <= 1.0
    ensures width <= 0 ==> r.0 == 0.0
    ensures height <= 0 ==> r.1 == 0.0
  {
    var nx := if width > 0 then x / width as real else 0.0;
    var ny := if height > 0 then y / height as real else 0.0;
    (Clamp(nx, 0.0, 1.0), Clamp(ny, 0.0, 1.0))
  }

  /** A pixel inside the image is only scaled, never clamped. */
  lemma NormalizeInside(x: real, y: real, width: int, height: int)
    requires 0 < width && 0.0 <= x <= width as real
    requires 0 < height && 0.0 <= y <= height as real
    ensures NormalizeCoordinates(x, y, width, height) == (x / width as real, y / height as real)
  {
    DivSigns(x, width as real);
    DivSigns(y, height as real);
  }

  /** `a + t * (b - a)`: `a` at 0 and `b` at 1. */
  function Lerp(a: real, b: real, t: real): (r: real)
    ensures t == 0.0 ==> r == a
    ensures t == 1.0 ==> r == b
  {
    a + t * (b - a)
  }

  /** For `t` in `[0, 1]` the interpolant lies between the two end values. */
  lemma LerpBetween(a: real, b: real, t: real)
    requires 0.0 <= t <= 1.0
    ensures Min(a, b) <= Lerp(a, b, t) <= Max(a, b)
  {
    ScaleBetween(t, b - a);
  }

  /** One step of exponential smoothing from `current` toward `target`. */
  function SmoothValue(current: real, target: real, smoothing: real): (r: real)
    ensures current == target ==> r == target
  {
    current + (target - current) * smoothing
  }

  /** With a factor in `[0, 1]` a smoothing step lands between the current value
      and the target and never overshoots: the remaining gap does not grow. */
  lemma SmoothValueBetween(current: real, target: real, smoothing: real)
    requires 0.0 <= smoothing <= 1.0
    ensures Min(current, target) <= SmoothValue(current, target, smoothing) <= Max(current, target)
    ensures Abs(target - SmoothValue(current, target, smoothing)) <= Abs(target - current)
  {
    var gap := target - current;
    var step := gap * smoothing;
    assert SmoothValue(current, target, smoothing) == current + step;
    if 0.0 <= gap {
      MulNonneg(gap, smoothing);
      MulNonneg(gap, 1.0 - smoothing);
      assert gap - step == gap * (1.0 - smoothing);
    } else {
      MulNonneg(-gap, smoothing);
      MulNonneg(-gap, 1.0 - smoothing);
      assert step - gap == (-gap) * (1.0 - smoothing);
      assert -step == (-gap) * smoothing;
    }
  }

  /** Smoothing is linear interpolation with the smoothing factor as parameter,
      and it closes the remaining gap by exactly that factor. */
  lemma SmoothValueIsLerp(current: real, target: real, smoothing: real)
    ensures SmoothValue(current, target, smoothing) == Lerp(current, target, smoothing)
    ensures target - SmoothValue(current, target, smoothing) == (1.0 - smoothing) * (target - current)
  {
  }

  /** Euclidean distance of two points in the plane: the root of the sum of the
      squared coordinate differences `p2 - p1`. */
  function Distance2D(sqrt: real -> real, p: (real, real), q: (real, real)): (d: real)
    requires IsSqrt(sqrt)
    ensures 0.0 <= d
  {
    sqrt(SqDist2(q, p))
  }

  /** The distance does not depend on the order of the points and is zero from a
      point to itself. */
  lemma Distance2DProperties(sqrt: real -> real, p: (real, real), q: (real, real))
    requires IsSqrt(sqrt)
    ensures Distance2D(sqrt, p, q) == Distance2D(sqrt, q, p)
    ensures Distance2D(sqrt, p, p) == 0.0
  {
    SqDist2Symmetric(p, q);
    RootZero(sqrt, 0.0);
  }

  /** Comparing the distance with a bound is comparing the squared distance
      with the squared bound. */
  lemma Distance2DBelow(sqrt: real -> real, p: (real, real), q: (real, real), c: real)
    requires IsSqrt(sqrt) && 0.0 <= c
    ensures Distance2D(sqrt, p, q) < c <==> SqDist2(q, p) < c * c
  {
    RootBelow(sqrt, SqDist2(q, p), c);
  }

  /** Linear rescaling of `[from_min, from_max]` onto `[to_min, to_max]`; Python
      raises on a division by zero when the source interval is empty. */
  function MapRange(value: real, fromMin: real, fromMax: real, toMin: real, toMax: real): (r: real)
    requires fromMax != fromMin
    ensures value == fromMin ==> r == toMin
    ensures value == fromMax ==> r == toMax
  {
    var normalized := (value - fromMin) / (fromMax - fromMin);
    DivSelf(fromMax - fromMin);
    assert value == fromMin ==> normalized == 0.0;
    assert value == fromMax ==> normalized == 1.0;
    toMin + normalized * (toMax - toMin)
  }

  /** A value of an ordered source interval lands in the target interval. */
  lemma MapRangeWithin(value: real, fromMin: real, fromMax: real, toMin: real, toMax: real)
    requires fromMin < fromMax && toMin <= toMax
    requires fromMin <= value <= fromMax
    ensures toMin <= MapRange(value, fromMin, fromMax, toMin, toMax) <= toMax
  {
    var w := fromMax - fromMin;
    DivSigns(value - fromMin, w);
    ScaleBetween((value - fromMin) / w, toMax - toMin);
  }

  /** Between ordered intervals the map keeps the order of its arguments. */
  lemma MapRangeMonotone(value: real, other: real, fromMin: real, fromMax: real, toMin: real, toMax: real)
    requires fromMin < fromMax && toMin <= toMax && value <= other
    ensures MapRange(value, fromMin, fromMax, toMin, toMax) <= MapRange(other, fromMin, fromMax, toMin, toMax)
  {
    var w, k := fromMax - fromMin, toMax - toMin;
    var n, m := (value - fromMin) / w, (other - fromMin) / w;
    QuotientMonotone(value - fromMin, other - fromMin, w);
    MulMonotone(n, m, k);
    assert MapRange(value, fromMin, fromMax, toMin, toMax) == toMin + n * k;
    assert MapRange(other, fromMin, fromMax, toMin, toMax) == toMin + m * k;
    ShiftMonotone(toMin, n * k, m * k,
      MapRange(value, fromMin, fromMax, toMin, toMax), MapRange(other, fromMin, fromMax, toMin, toMax));
  }

  lemma ShiftMonotone(a: real, x: real, y: real, p: real, q: real)
    requires x <= y && p == a + x && q == a + y
    ensures p <= q
  {
  }

  lemma QuotientMonotone(a: real, b: real, w: real)
    requires 0.0 < w && a <= b
    ensures a / w <= b / w
  {
    DivSigns(b - a, w);
    assert b / w - a / w == (b - a) / w;
  }

  lemma MulMonotone(n: real, m: real, k: real)
    requires n <= m && 0.0 <= k
    ensures n * k <= m * k
  {
    MulNonneg(m - n, k);
    assert m * k - n * k == (m - n) * k;
  }

  /** The Hermite ramp `t * t * (3 - 2 * t)` of the clamped position of `x`
      between two edges; Python raises when the edges coincide. */
  function SmoothStep(edge0: real, edge1: real, x: real): (r: real)
    requires edge1 != edge0
    ensures 0.0 <= r <= 1.0
  {
    var t := Clamp((x - edge0) / (edge1 - edge0), 0.0, 1.0);
    HermiteBounds(t);
    t * t * (3.0 - 2.0 * t)
  }

  lemma HermiteBounds(t: real)
    requires 0.0 <= t <= 1.0
    ensures 0.0 <= t * t * (3.0 - 2.0 * t) <= 1.0
  {
    MulNonneg(t, t);
    MulNonneg(t * t, 3.0 - 2.0 * t);
    assert 1.0 - t * t * (3.0 - 2.0 * t) == (1.0 - t) * (1.0 - t) * (1.0 + 2.0 * t);
    MulNonneg(1.0 - t, 1.0 - t);
    MulNonneg((1.0 - t) * (1.0 - t), 1.0 + 2.0 * t);
  }

  /** With ordered edges the step is 0 up to the lower edge and 1 from the upper one. */
  lemma SmoothStepEdges(edge0: real, edge1: real, x: real)
    requires edge0 < edge1
    ensures x <= edge0 ==> SmoothStep(edge0, edge1, x) == 0.0
    ensures edge1 <= x ==> SmoothStep(edge0, edge1, x) == 1.0
  {
    DivSigns(x - edge0, edge1 - edge0);
  }

  /** The 2-D vector helper: componentwise sum, difference and scaling. */
  datatype Vector2D = Vector2D(x: real, y: real) {
    function Add(o: Vector2D): Vector2D { Vector2D(x + o.x, y + o.y) }
    function Sub(o: Vector2D): Vector2D { Vector2D(x - o.x, y - o.y) }
    function Mul(k: real): Vector2D { Vector2D(x * k, y * k) }
    function ToTuple(): (real, real) { (x, y) }

    /** Length of the vector. */
    function Magnitude(sqrt: real -> real): (m: real)
      requires IsSqrt(sqrt)
      ensures 0.0 <= m
    {
      sqrt(Square(x) + Square(y))
    }

    /** The unit vector in the same direction, or the zero vector for the zero vector. */
    function Normalize(sqrt: real -> real): (u: Vector2D)
      requires IsSqrt(sqrt)
    {
      var mag := Magnitude(sqrt);
      if mag > 0.0 then Vector2D(x / mag, y / mag) else Vector2D(0.0, 0.0)
    }
  }

  /** Adding and then subtracting the same vector is the identity, and the tuple
      view holds the two components. */
  lemma VectorRoundTrips(v: Vector2D, o: Vector2D)
    ensures v.Add(o).Sub(o) == v && v.Sub(o).Add(o) == v
    ensures Vector2D(v.ToTuple().0, v.ToTuple().1) == v
  {
  }

  /** The zero vector has magnitude zero and normalises to itself; a vector of
      positive magnitude normalises to the direction that, scaled back by the
      magnitude, is the vector again. */
  lemma NormalizeProperties(sqrt: real -> real, v: Vector2D)
    requires IsSqrt(sqrt)
    ensures v == Vector2D(0.0, 0.0) ==> v.Magnitude(sqrt) == 0.0 && v.Normalize(sqrt) == v
    ensures v.Magnitude(sqrt) > 0.0 ==> v.Normalize(sqrt).Mul(v.Magnitude(sqrt)) == v
    ensures v.Magnitude(sqrt) > 0.0 ==>
      Square(v.Normalize(sqrt).x) + Square(v.Normalize(sqrt).y) == 1.0
  {
    RootZero(sqrt, 0.0);
    var m := v.Magnitude(sqrt);
    if m > 0.0 {
      DivMul(v.x, m);
      DivMul(v.y, m);
      var u := v.Normalize(sqrt);
      assert m * m == Square(v.x) + Square(v.y);
      ScaledSquare(u.x, m, v.x);
      ScaledSquare(u.y, m, v.y);
      UnitFactor(Square(u.x), Square(u.y), m * m, Square(v.x), Square(v.y));
    }
  }

  lemma ScaledSquare(a: real, m: real, b: real)
    requires b == a * m
    ensures Square(a) * (m * m) == Square(b)
  {
  }

  /** Two parts, each scaled by `k`, that add up to `k` add up to one. */
  lemma UnitFactor(p: real, q: real, k: real, a: real, b: real)
    requires 0.0 < k && p * k == a && q * k == b && a + b == k
    ensures p + q == 1.0
  {
    assert (p + q - 1.0) * k == 0.0;
  }
}
