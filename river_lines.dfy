/** What the two river renderers, `videomapping_pygame.py` and
    `videomapping_camera.py`, have in common: the point filter of
    `draw_smooth_line`, which puts a midpoint before every jump of 50 pixels
    or more, the darker glow of thick lines, the clamps that keep the water in
    its bed, and the switch between the two rivers. */
module RiverLines {
  import opened RealArith
  import opened Geometry
  import opened MathUtils

  type Point = (real, real)

  /** A step of at least 50 pixels is a jump. */
  const JumpLength := 50.0

  predicate Jump(p: Point, q: Point) {
    SqDist2(q, p) >= JumpLength * JumpLength
  }

  function Midpoint(p: Point, q: Point): Point {
    ((q.0 + p.0) / 2.0, (q.1 + p.1) / 2.0)
  }

  /** The filtered line: the input points in order, with the midpoint of each
      jump inserted before the point that ends it. */
  function Filtered(ps: seq<Point>): seq<Point> {
    if |ps| <= 1 then ps
    else
      var init := ps[..|ps| - 1];
      var p, q := ps[|ps| - 2], ps[|ps| - 1];
      Filtered(init) + (if Jump(p, q) then [Midpoint(p, q), q] else [q])
  }

  /** How many consecutive input pairs are jumps. */
  function JumpCount(ps: seq<Point>): nat {
    if |ps| <= 1 then 0
    else JumpCount(ps[..|ps| - 1]) + (if Jump(ps[|ps| - 2], ps[|ps| - 1]) then 1 else 0)
  }

  /** The filtered line has one extra point per jump, and starts and ends
      where the input does. */
  lemma {:induction false} FilteredShape(ps: seq<Point>)
    ensures |Filtered(ps)| == |ps| + JumpCount(ps)
    ensures ps != [] ==> Filtered(ps)[0] == ps[0] && Filtered(ps)[|Filtered(ps)| - 1] == ps[|ps| - 1]
  {
    if |ps| > 1 {
      var init := ps[..|ps| - 1];
      FilteredShape(init);
      assert init[0] == ps[0];
    }
  }

  /** Filtering a prefix gives a prefix of the filtered line. */
  lemma {:induction false} FilteredPrefix(ps: seq<Point>, m: nat)
    requires m <= |ps|
    ensures Filtered(ps[..m]) <= Filtered(ps)
    decreases |ps| - m
  {
    if m < |ps| {
      FilteredPrefix(ps, m + 1);
      var a := ps[..m + 1];
      assert a[..m] == ps[..m];
      if m == 0 {
        assert ps[..0] == [];
      } else {
        assert Filtered(ps[..m]) <= Filtered(a);
      }
    } else {
      assert ps[..m] == ps;
    }
  }

  /** Input point `k` sits at place `k` plus the jumps up to it, and when it
      ends a jump the midpoint of that jump sits just before it. */
  lemma FilteredPlace(ps: seq<Point>, k: nat)
    requires k < |ps|
    ensures k + JumpCount(ps[..k + 1]) < |Filtered(ps)|
    ensures Filtered(ps)[k + JumpCount(ps[..k + 1])] == ps[k]
    ensures 0 < k && Jump(ps[k - 1], ps[k]) ==>
      Filtered(ps)[k + JumpCount(ps[..k + 1]) - 1] == Midpoint(ps[k - 1], ps[k])
  {
    var a := ps[..k + 1];
    FilteredPrefix(ps, k + 1);
    FilteredShape(a);
    if 0 < k && Jump(ps[k - 1], ps[k]) {
      assert a[..|a| - 1] == ps[..k];
      FilteredShape(ps[..k]);
    }
  }

  /** `draw_smooth_line`'s loop, comparing each point with the last point kept. */
  method FilterPoints(sqrt: real -> real, points: seq<Point>) returns (filtered: seq<Point>)
    requires IsSqrt(sqrt)
    ensures filtered == Filtered(points)
  {
    filtered := [];
    var i := 0;
    while i < |points|
      invariant 0 <= i <= |points|
      invariant filtered == Filtered(points[..i])
    {
      assert points[..i + 1][..i] == points[..i];
      var point := points[i];
      if i == 0 {
        filtered := filtered + [point];
      } else {
        FilteredShape(points[..i]);
        var prev := filtered[|filtered| - 1];
        var distance := Distance2D(sqrt, prev, point);
        Distance2DBelow(sqrt, prev, point, JumpLength);
        if distance < JumpLength {
          filtered := filtered + [point];
        } else {
          filtered := filtered + [((point.0 + prev.0) / 2.0, (point.1 + prev.1) / 2.0), point];
        }
      }
      i := i + 1;
    }
    assert points[..i] == points;
  }

  /** A colour of 8-bit channels. */
  datatype Color = Color(r: int, g: int, b: int)

  /** The glow of a thick line: each channel 20 darker, never below 0. */
  function GlowColor(c: Color): (g: Color)
    ensures 0 <= g.r && 0 <= g.g && 0 <= g.b
    ensures c.r >= 20 ==> g.r == c.r - 20
    ensures c.g >= 20 ==> g.g == c.g - 20
    ensures c.b >= 20 ==> g.b == c.b - 20
    ensures 0 <= c.r ==> g.r <= c.r
    ensures 0 <= c.g ==> g.g <= c.g
    ensures 0 <= c.b ==> g.b <= c.b
  {
    Color(if c.r - 20 > 0 then c.r - 20 else 0, if c.g - 20 > 0 then c.g - 20 else 0, if c.b - 20 > 0 then c.b - 20 else 0)
  }

  /** One `pygame.draw.lines` call. */
  datatype Stroke = Stroke(color: Color, points: seq<Point>, width: int)

  function LineWidth(w: int): (r: int)
    ensures 1 <= r && (1 <= w ==> r == w)
  {
    if w > 1 then w else 1
  }

  /** `draw_smooth_line`: nothing for fewer than two points; otherwise the
      filtered line, and a wider glow behind it when the width exceeds 3. */
  method DrawSmoothLine(sqrt: real -> real, color: Color, points: seq<Point>, width: int) returns (strokes: seq<Stroke>)
    requires IsSqrt(sqrt)
    ensures |points| < 2 ==> strokes == []
    ensures |points| >= 2 ==> |strokes| == (if width > 3 then 2 else 1)
    ensures |points| >= 2 ==> strokes[0] == Stroke(color, Filtered(points), LineWidth(width))
    ensures |points| >= 2 && width > 3 ==> strokes[1] == Stroke(GlowColor(color), Filtered(points), width + 2)
  {
    if |points| < 2 {
      return [];
    }
    var filtered := FilterPoints(sqrt, points);
    strokes := [Stroke(color, filtered, LineWidth(width))];
    if width > 3 {
      strokes := strokes + [Stroke(GlowColor(color), filtered, LineWidth(width + 2))];
    }
  }

  // ---------------------------------------------------------------- the river beds

  /** The concrete channel of the Mapocho: 180 pixels high around the middle
      of the screen; the water keeps 20 pixels from each wall. */
  function MapochoY(height: nat, y: real): (r: real)
    ensures (height / 2 - 70) as real <= r <= (height / 2 + 70) as real
    ensures (height / 2 - 70) as real <= y <= (height / 2 + 70) as real ==> r == y
  {
    var canalY := height / 2;
    var canalTop := canalY - 180 / 2;
    var canalBottom := canalY + 180 / 2;
    Max((canalTop + 20) as real, Min((canalBottom - 20) as real, y))
  }

  /** The Maipo's arms stay 50 pixels away from the top and the bottom of the
      screen when it is at least 100 pixels high. */
  function MaipoY(height: int, y: real): (r: real)
    ensures 50.0 <= r
    ensures height >= 100 ==> r <= (height - 50) as real
    ensures 50.0 <= y <= (height - 50) as real ==> r == y
  {
    Max(50.0, Min((height - 50) as real, y))
  }

  function MaipoX(width: int, x: real): (r: real)
    ensures 0.0 <= r
    ensures width >= 0 ==> r <= width as real
    ensures 0.0 <= x <= width as real ==> r == x
  {
    Max(0.0, Min(width as real, x))
  }

  /** The rest height of water line `i` of the eight in the channel: evenly
      spread over the middle 60% of it. */
  function MapochoBase(height: nat, i: nat): real {
    (height / 2) as real + (i as real / 7.0) * (180.0 * 0.6) - 180.0 * 0.3
  }

  /** At rest every line lies inside the band the clamp allows, so only the
      waves and the hand are ever cut off. */
  lemma MapochoBaseInBand(height: nat, i: nat)
    requires i <= 7
    ensures (height / 2 - 70) as real < MapochoBase(height, i) < (height / 2 + 70) as real
  {
    assert 0.0 <= i as real / 7.0 <= 1.0;
  }

  /** One water line of the Mapocho: a point every 4 pixels across the screen,
      its height the rest height plus `displacement` (the waves and the hand,
      whatever they are), clamped to the channel. */
  method MapochoLine(height: nat, width: nat, i: nat, displacement: real -> real) returns (points: seq<Point>)
    ensures |points| == (width + 3) / 4
    ensures forall k :: 0 <= k < |points| ==>
      points[k] == ((4 * k) as real, MapochoY(height, MapochoBase(height, i) + displacement((4 * k) as real)))
    ensures forall k :: 0 <= k < |points| ==> (height / 2 - 70) as real <= points[k].1 <= (height / 2 + 70) as real
  {
    points := [];
    var baseY := MapochoBase(height, i);
    var x: nat := 0;
    while x < width
      invariant x == 4 * |points| && (x <= width + 3)
      invariant forall k :: 0 <= k < |points| ==>
        points[k] == ((4 * k) as real, MapochoY(height, baseY + displacement((4 * k) as real)))
    {
      var yFinal := baseY + displacement(x as real);
      yFinal := Max((height / 2 - 90 + 20) as real, Min((height / 2 + 90 - 20) as real, yFinal));
      points := points + [(x as real, yFinal)];
      x := x + 4;
    }
    StepCount(width, |points|, 4);
  }

  /** `range(0, w, s)` has `(w + s - 1) / s` elements, for the steps 3 and 4 used here. */
  lemma StepCount(w: nat, n: nat, s: nat)
    requires s == 3 || s == 4
    requires w <= s * n && (n == 0 || s * (n - 1) < w)
    ensures n == (w + s - 1) / s
  {
    if s == 3 {
      assert w <= 3 * n && (n == 0 || 3 * n - 3 < w);
    } else {
      assert w <= 4 * n && (n == 0 || 4 * n - 4 < w);
    }
  }

  /** The rest height of arm `i` of the Maipo. */
  function MaipoBase(height: int, i: nat): real {
    height as real * (0.3 + i as real * 0.1)
  }

  /** One arm of the Maipo: a point every 3 pixels across the screen, moved by
      `displacement` (meanders, turbulence and the hand), then kept on screen
      and 50 pixels from its top and bottom. */
  method MaipoArm(height: int, width: nat, i: nat, displacement: real -> real) returns (path: seq<Point>)
    ensures |path| == (width + 2) / 3
    ensures forall k :: 0 <= k < |path| ==>
      path[k] == (MaipoX(width, (3 * k) as real), MaipoY(height, MaipoBase(height, i) + displacement((3 * k) as real)))
    ensures forall k :: 0 <= k < |path| ==> 0.0 <= path[k].0 <= width as real && 50.0 <= path[k].1
    ensures height >= 100 ==> forall k :: 0 <= k < |path| ==> path[k].1 <= (height - 50) as real
  {
    path := [];
    var yBase := MaipoBase(height, i);
    var x: nat := 0;
    while x < width
      invariant x == 3 * |path| && (x <= width + 2)
      invariant forall k :: 0 <= k < |path| ==>
        path[k] == (MaipoX(width, (3 * k) as real), MaipoY(height, yBase + displacement((3 * k) as real)))
    {
      var handInfluenceX := 0.0;
      var xFinal := x as real + handInfluenceX;
      var yFinal := yBase + displacement(x as real);
      xFinal := Max(0.0, Min(width as real, xFinal));
      yFinal := Max(50.0, Min((height - 50) as real, yFinal));
      path := path + [(xFinal, yFinal)];
      x := x + 3;
    }
    StepCount(width, |path|, 3);
  }

  // ---------------------------------------------------------------- the effects

  const Mapocho := "MAPOCHO"
  const Maipo := "MAIPO"

  /** `switch_effect`: the Mapocho becomes the Maipo, anything else the Mapocho. */
  function Switched(effect: string): (r: string)
    ensures r == Mapocho || r == Maipo
    ensures (effect == Mapocho || effect == Maipo) ==> r != effect
  {
    if effect == Mapocho then Maipo else Mapocho
  }

  /** Between the two rivers, switching twice changes nothing. */
  lemma SwitchedTwice(effect: string)
    requires effect == Mapocho || effect == Maipo
    ensures Switched(Switched(effect)) == effect
  {
    assert Mapocho != Maipo by {
      assert |Mapocho| != |Maipo|;
    }
  }
}
