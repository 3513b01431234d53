/** Value types shared by the models: 3-D points and vectors, RGB colours,
    and the squared Euclidean distances that replace square roots in comparisons. */
module Geometry {
  import opened RealArith

  /** A point or vector in 3-D; also a MediaPipe landmark `(x, y, z)`. */
  datatype Vec3 = Vec3(x: real, y: real, z: real) {
    function Plus(o: Vec3): Vec3 { Vec3(x + o.x, y + o.y, z + o.z) }
    function Minus(o: Vec3): Vec3 { Vec3(x - o.x, y - o.y, z - o.z) }
    function Times(k: real): Vec3 { Vec3(k * x, k * y, k * z) }
  }

  /** A colour as three channel intensities. */
  datatype Rgb = Rgb(r: real, g: real, b: real)

  const White := Rgb(1.0, 1.0, 1.0)
  const Red := Rgb(1.0, 0.0, 0.0)

  /** `a * a`, never negative. */
  function Square(a: real): (r: real)
    ensures 0.0 <= r
  {
    a * a
  }

  /** Squared 3-D distance; zero from a point to itself. */
  function SqDist3(a: Vec3, b: Vec3): (d: real)
    ensures 0.0 <= d
    ensures a == b ==> d == 0.0
  {
    Square(a.x - b.x) + Square(a.y - b.y) + Square(a.z - b.z)
  }

  /** Squared distance of two points in the image plane (x and y only). */
  function SqDist2(a: (real, real), b: (real, real)): (d: real)
    ensures 0.0 <= d
    ensures a == b ==> d == 0.0
  {
    Square(a.0 - b.0) + Square(a.1 - b.1)
  }

  /** Python's `int(v)` on a float: truncation toward zero. */
  function Trunc(v: real): (n: int)
    ensures 0.0 <= v ==> n as real <= v < n as real + 1.0
    ensures v < 0.0 ==> n as real - 1.0 < v <= n as real
  {
    if v >= 0.0 then v.Floor else -((-v).Floor)
  }

  lemma SqDist2Symmetric(a: (real, real), b: (real, real))
    ensures SqDist2(a, b) == SqDist2(b, a)
  {
    assert (a.0 - b.0) * (a.0 - b.0) == (b.0 - a.0) * (b.0 - a.0);
    assert (a.1 - b.1) * (a.1 - b.1) == (b.1 - a.1) * (b.1 - a.1);
  }

  function Min(a: real, b: real): real { if b < a then b else a }
  function Max(a: real, b: real): real { if b > a then b else a }
}
