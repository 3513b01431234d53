/** The camera-driven PCR scene of `pcr_camera_simulation.py`: bacteria that
    can be reset to where they were spawned, the statistics the frame update
    gathers over them, the mapping of a tracked palm into the scene, and the
    mouse-wheel zoom. */
module PcrCamera {
  import opened Geometry
  import opened Wrappers
  import opened Landmarks
  import opened SphereMesh

  // ---------------------------------------------------------------- the cell model

  class BasteriaPlyModel {
    /** The `segments` of `create_default_geometry`. */
    const segments: nat
    var colors: seq<Rgb>
    var indices: seq<nat>
    var center: Vec3

    /** `__init__` when the PLY file cannot be read: the default geometry. */
    constructor ()
      ensures segments == 16
      ensures SphereGeometry(segments, colors, indices) && center == Vec3(0.0, 0.0, 0.0)
    {
      segments := 16;
      new;
      CreateDefaultGeometry();
    }

    /** `create_default_geometry`: the sphere of `segments` segments centred at
        the origin (`SphereGeometryCounts` counts its vertices and indices). */
    method CreateDefaultGeometry()
      modifies this`colors, this`indices, this`center
      ensures SphereGeometry(segments, colors, indices)
      ensures center == Vec3(0.0, 0.0, 0.0)
    {
      var c, ix := BuildSphere(segments);
      colors := c;
      indices := ix;
      center := Vec3(0.0, 0.0, 0.0);
    }
  }

  // ---------------------------------------------------------------- bacteria

  const FreshTemperature := 25.0
  const FreshEnergy := 100.0

  /** The fields of a cell that the frame update and the reset touch. */
  datatype CellState = CellState(
    pos: Vec3, temperature: real, denaturationLevel: real, energy: real, active: bool, color: Rgb)

  /** A cell after `reset_simulation`: back at its spawn point, 25 degrees,
      undenatured, full energy and active, its colour unchanged. */
  function ResetState(c: CellState, origin: Vec3): (r: CellState)
    ensures r.pos == origin && r.temperature == FreshTemperature && r.denaturationLevel == 0.0
    ensures r.energy == FreshEnergy && r.active && r.color == c.color
  {
    c.(pos := origin, temperature := FreshTemperature, denaturationLevel := 0.0, energy := FreshEnergy, active := true)
  }

  class BasteriaCell {
    var x: real
    var y: real
    var z: real
    const origin: Vec3
    var temperature: real
    var denaturationLevel: real
    var energy: real
    var active: bool
    var color: Rgb

    function State(): CellState
      reads this
    {
      CellState(Vec3(x, y, z), temperature, denaturationLevel, energy, active, color)
    }

    /** A cell spawned at `pos`: 25 degrees, not denatured, full energy, green. */
    constructor (pos: Vec3)
      ensures Vec3(x, y, z) == pos && origin == pos
      ensures temperature == FreshTemperature && denaturationLevel == 0.0
      ensures energy == FreshEnergy && active && color == Rgb(0.2, 0.8, 0.2)
    {
      x, y, z := pos.x, pos.y, pos.z;
      origin := pos;
      temperature := FreshTemperature;
      denaturationLevel := 0.0;
      energy := FreshEnergy;
      active := true;
      color := Rgb(0.2, 0.8, 0.2);
    }

    /** `BasteriaCell.update` has an empty body: the hands do not act on cells. */
    method Update(dt: real, handPositions: seq<Vec3>)
      modifies this
      ensures unchanged(this)
    {
    }

    /** The body of the `reset_simulation` loop for one cell; the colour is left as it is. */
    method Reset()
      modifies this
      ensures Vec3(x, y, z) == origin
      ensures denaturationLevel == 0.0 && temperature == FreshTemperature
      ensures energy == FreshEnergy && active && color == old(color)
      ensures State() == ResetState(old(State()), origin)
    {
      denaturationLevel := 0.0;
      temperature := FreshTemperature;
      energy := FreshEnergy;
      active := true;
      x := origin.x;
      y := origin.y;
      z := origin.z;
    }
  }

  /** A cell counts as denatured above this level. */
  const DenaturedAbove := 0.8

  /** How many of the cells are denatured; never more than there are cells. */
  function DenaturedCount(cs: seq<BasteriaCell>): (n: nat)
    reads set c | c in cs
    ensures n <= |cs|
  {
    if cs == [] then 0
    else DenaturedCount(cs[..|cs| - 1]) + (if cs[|cs| - 1].denaturationLevel > DenaturedAbove then 1 else 0)
  }

  function TotalTemperature(cs: seq<BasteriaCell>): real
    reads set c | c in cs
  {
    if cs == [] then 0.0 else TotalTemperature(cs[..|cs| - 1]) + cs[|cs| - 1].temperature
  }

  /** No cell is counted unless its level is above 0.8. */
  lemma {:induction false} DenaturedCountZero(cs: seq<BasteriaCell>)
    requires forall k :: 0 <= k < |cs| ==> cs[k].denaturationLevel <= DenaturedAbove
    ensures DenaturedCount(cs) == 0
  {
    if cs != [] {
      DenaturedCountZero(cs[..|cs| - 1]);
    }
  }

  /** Every cell is counted when every level is above 0.8. */
  lemma {:induction false} DenaturedCountAll(cs: seq<BasteriaCell>)
    requires forall k :: 0 <= k < |cs| ==> cs[k].denaturationLevel > DenaturedAbove
    ensures DenaturedCount(cs) == |cs|
  {
    if cs != [] {
      DenaturedCountAll(cs[..|cs| - 1]);
    }
  }

  lemma {:induction false} TotalTemperatureBounds(cs: seq<BasteriaCell>, lo: real, hi: real)
    requires forall k :: 0 <= k < |cs| ==> lo <= cs[k].temperature <= hi
    ensures |cs| as real * lo <= TotalTemperature(cs) <= |cs| as real * hi
  {
    if cs != [] {
      TotalTemperatureBounds(cs[..|cs| - 1], lo, hi);
    }
  }

  /** The reported average lies between the coldest and the hottest cell's bounds. */
  lemma MeanTemperatureWithin(cs: seq<BasteriaCell>, lo: real, hi: real)
    requires cs != []
    requires forall k :: 0 <= k < |cs| ==> lo <= cs[k].temperature <= hi
    ensures lo <= TotalTemperature(cs) / |cs| as real <= hi
  {
    TotalTemperatureBounds(cs, lo, hi);
  }

  // ---------------------------------------------------------------- hands and events

  /** Where a tracked palm (landmark 9) appears in the scene: the image is
      spread over 20 units across and 10 units high, upside up, and the depth
      is scaled by 15. The mapping can be undone. */
  function PalmToWorld(lm: HandLandmarks): (w: Vec3)
    ensures lm[MiddleMcp] == Vec3(w.x / 20.0 + 0.5, 0.5 - w.y / 10.0, w.z / 15.0)
    ensures 0.0 <= lm[MiddleMcp].x <= 1.0 ==> -10.0 <= w.x <= 10.0
    ensures 0.0 <= lm[MiddleMcp].y <= 1.0 ==> -5.0 <= w.y <= 5.0
  {
    var palm := lm[MiddleMcp];
    Vec3((palm.x - 0.5) * 20.0, (0.5 - palm.y) * 10.0, palm.z * 15.0)
  }

  /** The input events `handle_events` reacts to; wheel buttons 4 and 5 zoom. */
  datatype CameraEvent =
    | Quit | KeyEscape | KeyC | KeyP | KeyR
    | MouseMotion(leftButton: bool, relX: int, relY: int)
    | MouseButton(button: int)
    | OtherEvent

  predicate Stops(e: CameraEvent) {
    e.Quit? || e.KeyEscape?
  }

  const MinDistance := 5.0
  const MaxDistance := 30.0

  /** The zoom one event causes. */
  function Zoom(d: real, e: CameraEvent): (r: real)
    ensures e == MouseButton(4) ==> r == Max(MinDistance, d - 1.0)
    ensures e == MouseButton(5) ==> r == Min(MaxDistance, d + 1.0)
    ensures MinDistance <= d <= MaxDistance ==> MinDistance <= r <= MaxDistance
    ensures !e.MouseButton? ==> r == d
  {
    if e == MouseButton(4) then Max(MinDistance, d - 1.0)
    else if e == MouseButton(5) then Min(MaxDistance, d + 1.0)
    else d
  }

  function Zoomed(d: real, events: seq<CameraEvent>): real {
    if events == [] then d else Zoom(Zoomed(d, events[..|events| - 1]), events[|events| - 1])
  }

  /** Any run of events keeps a distance in `[5, 30]` there. */
  lemma {:induction false} ZoomedInRange(d: real, events: seq<CameraEvent>)
    requires MinDistance <= d <= MaxDistance
    ensures MinDistance <= Zoomed(d, events) <= MaxDistance
  {
    if events != [] {
      ZoomedInRange(d, events[..|events| - 1]);
    }
  }

  /** How many events `handle_events` handles before one stops it. */
  function Handled(events: seq<CameraEvent>): (n: nat)
    ensures n <= |events|
    ensures forall k :: 0 <= k < n ==> !Stops(events[k])
    ensures n < |events| ==> Stops(events[n])
  {
    if events == [] then 0
    else if Stops(events[0]) then 0
    else 1 + Handled(events[1..])
  }

  /** The view settings `handle_events` changes. */
  datatype SceneControls = SceneControls(distance: real, rotX: real, rotY: real, showCamera: bool, paused: bool)

  /** The horizontal and the vertical rotation one event adds: a hundredth of
      a radian per pixel dragged with the left button. */
  function DragY(e: CameraEvent): real {
    if e.MouseMotion? && e.leftButton then e.relX as real * 0.01 else 0.0
  }

  function DragX(e: CameraEvent): real {
    if e.MouseMotion? && e.leftButton then e.relY as real * 0.01 else 0.0
  }

  /** One event of `handle_events` on the view settings (R resets the cells,
      which the method does): C shows or hides the camera image, P pauses or
      resumes, a left-button drag rotates and the wheel zooms. */
  function SceneStep(c: SceneControls, e: CameraEvent): (r: SceneControls)
    ensures Stops(e) ==> r == c
    ensures r.distance == Zoom(c.distance, e)
    ensures r.showCamera == (c.showCamera != e.KeyC?) && r.paused == (c.paused != e.KeyP?)
    ensures !(e.MouseMotion? && e.leftButton) ==> r.rotX == c.rotX && r.rotY == c.rotY
  {
    match e
    case KeyC => c.(showCamera := !c.showCamera)
    case KeyP => c.(paused := !c.paused)
    case MouseMotion(left, rx, ry) =>
      if left then c.(rotY := c.rotY + rx as real * 0.01, rotX := c.rotX + ry as real * 0.01) else c
    case MouseButton(_) => c.(distance := Zoom(c.distance, e))
    case _ => c
  }

  /** The events in order. */
  function SceneSteps(c: SceneControls, events: seq<CameraEvent>): SceneControls {
    if events == [] then c else SceneStep(SceneSteps(c, events[..|events| - 1]), events[|events| - 1])
  }

  /** How many of the events are `e`. */
  function Occurrences(events: seq<CameraEvent>, e: CameraEvent): nat {
    if events == [] then 0
    else Occurrences(events[..|events| - 1], e) + (if events[|events| - 1] == e then 1 else 0)
  }

  function DragSumX(events: seq<CameraEvent>): real {
    if events == [] then 0.0 else DragSumX(events[..|events| - 1]) + DragX(events[|events| - 1])
  }

  function DragSumY(events: seq<CameraEvent>): real {
    if events == [] then 0.0 else DragSumY(events[..|events| - 1]) + DragY(events[|events| - 1])
  }

  /** What a run of events does to the view: the zoom of its wheel steps, the
      camera image and the pause toggled once per C and per P, and the
      rotations moved by the sum of the drags. */
  lemma {:induction false} SceneStepsSummary(c: SceneControls, events: seq<CameraEvent>)
    ensures SceneSteps(c, events).distance == Zoomed(c.distance, events)
    ensures SceneSteps(c, events).showCamera == (c.showCamera != (Occurrences(events, KeyC) % 2 == 1))
    ensures SceneSteps(c, events).paused == (c.paused != (Occurrences(events, KeyP) % 2 == 1))
    ensures SceneSteps(c, events).rotX == c.rotX + DragSumX(events)
    ensures SceneSteps(c, events).rotY == c.rotY + DragSumY(events)
  {
    if events != [] {
      SceneStepsSummary(c, events[..|events| - 1]);
    }
  }

  predicate ResetIn(events: seq<CameraEvent>) {
    exists k :: 0 <= k < |events| && events[k].KeyR?
  }

  datatype Stats = Stats(totalCells: nat, denaturedCells: nat, avgTemperature: real)

  class PcrCameraSimulation {
    var cameraDistance: real
    var cameraRotationX: real
    var cameraRotationY: real
    var cells: seq<BasteriaCell>
    var showCamera: bool
    var paused: bool
    var stats: Stats

    ghost predicate Valid()
      reads this
    {
      forall i, j :: 0 <= i < j < |cells| ==> cells[i] != cells[j]
    }

    function Controls(): SceneControls
      reads this
    {
      SceneControls(cameraDistance, cameraRotationX, cameraRotationY, showCamera, paused)
    }

    /** The scene at start: camera 15 units away, one cell at `spawn`, and
        statistics of one cell, none denatured, average 25. */
    constructor (spawn: Vec3)
      ensures Valid() && |cells| == 1 && fresh(cells[0])
      ensures cells[0].origin == spawn && cells[0].denaturationLevel == 0.0
      ensures cameraDistance == 15.0 && cameraRotationX == 0.0 && cameraRotationY == 0.0
      ensures showCamera && !paused
      ensures stats == Stats(1, 0, FreshTemperature)
    {
      cameraDistance := 15.0;
      cameraRotationX := 0.0;
      cameraRotationY := 0.0;
      var cell := new BasteriaCell(spawn);
      cells := [cell];
      showCamera := true;
      paused := false;
      stats := Stats(1, 0, FreshTemperature);
    }

    /** `reset_simulation`: every cell returns to its spawn point, cool,
        undenatured, with full energy; nothing else changes. */
    method ResetSimulation()
      requires Valid()
      modifies set c | c in cells
      ensures forall k :: 0 <= k < |cells| ==>
        Vec3(cells[k].x, cells[k].y, cells[k].z) == cells[k].origin &&
        cells[k].denaturationLevel == 0.0 && cells[k].temperature == FreshTemperature &&
        cells[k].energy == FreshEnergy && cells[k].active && cells[k].color == old(cells[k].color)
      ensures forall k :: 0 <= k < |cells| ==> cells[k].State() == ResetState(old(cells[k].State()), cells[k].origin)
    {
      var i := 0;
      while i < |cells|
        invariant 0 <= i <= |cells|
        invariant forall k :: 0 <= k < i ==>
          Vec3(cells[k].x, cells[k].y, cells[k].z) == cells[k].origin &&
          cells[k].denaturationLevel == 0.0 && cells[k].temperature == FreshTemperature &&
          cells[k].energy == FreshEnergy && cells[k].active && cells[k].color == old(cells[k].color)
        invariant forall k :: 0 <= k < i ==> cells[k].State() == ResetState(old(cells[k].State()), cells[k].origin)
        invariant forall k :: i <= k < |cells| ==> unchanged(cells[k])
      {
        cells[i].Reset();
        i := i + 1;
      }
    }

    /** `process_hand_tracking` once MediaPipe has run: no hands when the
        camera read fails, otherwise one scene point per detected hand, in order. */
    method HandPositions(frame: Option<seq<HandLandmarks>>) returns (positions: seq<Vec3>)
      ensures frame.None? ==> positions == []
      ensures frame.Some? ==> |positions| == |frame.value|
      ensures frame.Some? ==> forall k :: 0 <= k < |positions| ==> positions[k] == PalmToWorld(frame.value[k])
    {
      positions := [];
      if frame.None? {
        return;
      }
      var hands := frame.value;
      var i := 0;
      while i < |hands|
        invariant 0 <= i <= |hands| && |positions| == i
        invariant forall k :: 0 <= k < i ==> positions[k] == PalmToWorld(hands[k])
      {
        var palm := hands[i][MiddleMcp];
        positions := positions + [Vec3((palm.x - 0.5) * 20.0, (0.5 - palm.y) * 10.0, palm.z * 15.0)];
        i := i + 1;
      }
    }

    /** `update`: nothing while paused; otherwise the cells are updated with
        the hand points and the statistics recounted. The average is only
        refreshed when there are cells, and the total is never recounted. */
    method Update(dt: real, frame: Option<seq<HandLandmarks>>)
      requires Valid()
      modifies this`stats, set c | c in cells
      ensures paused ==> stats == old(stats)
      ensures forall k :: 0 <= k < |cells| ==> unchanged(cells[k])
      ensures !paused ==> stats.denaturedCells == DenaturedCount(cells)
      ensures !paused && cells != [] ==> stats.avgTemperature == TotalTemperature(cells) / |cells| as real
      ensures cells == [] ==> stats.avgTemperature == old(stats.avgTemperature)
      ensures stats.totalCells == old(stats.totalCells)
    {
      if paused {
        return;
      }
      var handPositions := HandPositions(frame);
      var denatured, total := UpdateCells(dt, handPositions);
      stats := stats.(denaturedCells := denatured);
      if |cells| > 0 {
        stats := stats.(avgTemperature := total / |cells| as real);
      }
    }

    /** The loop of `update`: each cell is updated, then counted if denatured
        and its temperature added to the total. */
    method UpdateCells(dt: real, handPositions: seq<Vec3>) returns (denatured: nat, total: real)
      modifies set c | c in cells
      ensures forall k :: 0 <= k < |cells| ==> unchanged(cells[k])
      ensures denatured == DenaturedCount(cells) && total == TotalTemperature(cells)
    {
      denatured := 0;
      total := 0.0;
      var i := 0;
      while i < |cells|
        invariant 0 <= i <= |cells|
        invariant forall k :: 0 <= k < |cells| ==> unchanged(cells[k])
        invariant denatured == DenaturedCount(cells[..i])
        invariant total == TotalTemperature(cells[..i])
      {
        assert cells[..i + 1][..i] == cells[..i];
        cells[i].Update(dt, handPositions);
        if cells[i].denaturationLevel > DenaturedAbove {
          denatured := denatured + 1;
        }
        total := total + cells[i].temperature;
        i := i + 1;
      }
      assert cells[..i] == cells;
    }

    /** One event of `handle_events`; false asks the program to stop. */
    method HandleEvent(e: CameraEvent) returns (running: bool)
      requires Valid()
      modifies this`showCamera, this`paused, this`cameraRotationX, this`cameraRotationY, this`cameraDistance, set c | c in cells
      ensures running <==> !Stops(e)
      ensures Controls() == SceneStep(old(Controls()), e)
      ensures e.KeyR? ==> forall k :: 0 <= k < |cells| ==>
        Vec3(cells[k].x, cells[k].y, cells[k].z) == cells[k].origin &&
        cells[k].denaturationLevel == 0.0 && cells[k].temperature == FreshTemperature &&
        cells[k].energy == FreshEnergy && cells[k].active && cells[k].color == old(cells[k].color)
      ensures forall k :: 0 <= k < |cells| ==>
        cells[k].State() == if e.KeyR? then ResetState(old(cells[k].State()), cells[k].origin) else old(cells[k].State())
    {
      running := true;
      match e {
        case Quit => running := false;
        case KeyEscape => running := false;
        case KeyC => showCamera := !showCamera;
        case KeyP => paused := !paused;
        case KeyR => ResetSimulation();
        case MouseMotion(left, rx, ry) =>
          if left {
            cameraRotationY := cameraRotationY + rx as real * 0.01;
            cameraRotationX := cameraRotationX + ry as real * 0.01;
          }
        case MouseButton(b) =>
          if b == 4 {
            cameraDistance := Max(MinDistance, cameraDistance - 1.0);
          } else if b == 5 {
            cameraDistance := Min(MaxDistance, cameraDistance + 1.0);
          }
        case OtherEvent =>
      }
    }

    /** `handle_events`: the events are handled in order until one stops the
        program, which drops the rest; the view follows the handled events
        (`SceneStepsSummary` says how), and the cells are reset if an R was
        among them. */
    method HandleEvents(events: seq<CameraEvent>) returns (running: bool)
      requires Valid()
      modifies this`showCamera, this`paused, this`cameraRotationX, this`cameraRotationY, this`cameraDistance, set c | c in cells
      ensures running <==> Handled(events) == |events|
      ensures Controls() == SceneSteps(old(Controls()), events[..Handled(events)])
      ensures cameraDistance == Zoomed(old(cameraDistance), events[..Handled(events)])
      ensures forall k :: 0 <= k < |cells| ==>
        cells[k].State() == if ResetIn(events[..Handled(events)]) then ResetState(old(cells[k].State()), cells[k].origin) else old(cells[k].State())
    {
      var i := 0;
      while i < |events|
        invariant 0 <= i <= |events| && i <= Handled(events)
        invariant Controls() == SceneSteps(old(Controls()), events[..i])
        invariant forall k :: 0 <= k < |cells| ==>
          cells[k].State() == if ResetIn(events[..i]) then ResetState(old(cells[k].State()), cells[k].origin) else old(cells[k].State())
      {
        assert events[..i + 1][..i] == events[..i];
        assert ResetIn(events[..i + 1]) <==> ResetIn(events[..i]) || events[i].KeyR? by {
          assert events[..i + 1][i] == events[i];
        }
        var go := HandleEvent(events[i]);
        if !go {
          assert Handled(events) == i;
          SceneStepsSummary(old(Controls()), events[..i]);
          return false;
        }
        i := i + 1;
      }
      assert events[..i] == events;
      SceneStepsSummary(old(Controls()), events);
      return true;
    }
  }
}
