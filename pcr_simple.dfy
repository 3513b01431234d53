/** The stand-alone PCR simulation of `pcr_simple_simulation.py`: a four-stage
    thermal cycle driven by a three-second timer, and a cloud of thermophilic
    cells whose temperature follows the stage, whose energy drains while they
    are active, and which the mouse can recharge and attract. The random initial
    positions and animation phases are parameters; so are `math.sqrt` (through
    `IsSqrt`) and `math.sin`, which only adds a vertical wobble. */
module PcrSimple {
  import opened RealArith
  import opened Geometry
  import opened Wrappers
  import opened MathUtils

  // ---------------------------------------------------------------- stages

  datatype PcrStage = Denaturation | Annealing | Extension | Cooling

  /** `next_pcr_stage` on the stage and the cycle counter: cooling, denaturation,
      annealing, extension, and back to cooling, which completes one cycle. */
  function NextStage(stage: PcrStage, cycles: nat): (r: (PcrStage, nat))
    ensures r.1 == if stage == Extension then cycles + 1 else cycles
    ensures r.0 != stage
  {
    match stage
    case Cooling => (Denaturation, cycles)
    case Denaturation => (Annealing, cycles)
    case Annealing => (Extension, cycles)
    case Extension => (Cooling, cycles + 1)
  }

  function NextStages(stage: PcrStage, cycles: nat, k: nat): (PcrStage, nat) {
    if k == 0 then (stage, cycles)
    else var r := NextStages(stage, cycles, k - 1); NextStage(r.0, r.1)
  }

  /** Four steps from any stage come back to it having completed exactly one cycle;
      so `4 * n` steps complete `n`. */
  lemma {:induction false} FourStepsOneCycle(stage: PcrStage, cycles: nat, n: nat)
    ensures NextStages(stage, cycles, 4 * n) == (stage, cycles + n)
  {
    if n > 0 {
      FourStepsOneCycle(stage, cycles, n - 1);
      var m := 4 * (n - 1);
      assert 4 * n == m + 4;
      assert NextStages(stage, cycles, m + 1) == NextStage(stage, cycles + n - 1);
      assert NextStages(stage, cycles, m + 2) == NextStage(NextStages(stage, cycles, m + 1).0, NextStages(stage, cycles, m + 1).1);
      assert NextStages(stage, cycles, m + 3) == NextStage(NextStages(stage, cycles, m + 2).0, NextStages(stage, cycles, m + 2).1);
    }
  }

  /** The temperature a cell heads for in each stage. */
  function TargetTemp(stage: PcrStage): (t: real)
    ensures stage == Denaturation ==> t == 94.0
    ensures stage == Annealing ==> t == 55.0
    ensures stage == Extension ==> t == 72.0
    ensures stage == Cooling ==> t == 25.0
    ensures 25.0 <= t <= 94.0
  {
    match stage
    case Denaturation => 94.0
    case Annealing => 55.0
    case Extension => 72.0
    case Cooling => 25.0
  }

  // ---------------------------------------------------------------- one cell

  const Hot := Rgb(0.8, 0.2, 0.2)
  const Warm := Rgb(0.8, 0.6, 0.2)
  const Mild := Rgb(0.8, 0.8, 0.2)
  const Cool := Rgb(0.2, 0.8, 0.2)
  const Depleted := Rgb(0.5, 0.5, 0.5)

  /** Red above 80 degrees, orange above 60, yellow above 40, green otherwise. */
  function CellColor(temperature: real): (c: Rgb)
    ensures c == Hot <==> temperature > 80.0
    ensures c == Warm <==> 60.0 < temperature <= 80.0
    ensures c == Mild <==> 40.0 < temperature <= 60.0
    ensures c == Cool <==> temperature <= 40.0
  {
    if temperature > 80.0 then Hot
    else if temperature > 60.0 then Warm
    else if temperature > 40.0 then Mild
    else Cool
  }

  /** The temperature after one update: the gap to the target times `2 * dt`
      is closed. */
  function TempStep(temperature: real, target: real, dt: real): real {
    temperature + (target - temperature) * dt * 2.0
  }

  /** With `0 <= 2 * dt <= 1` the temperature moves toward the target without
      passing it, and exactly `1 - 2 * dt` of the gap remains. */
  lemma TempStepApproaches(temperature: real, target: real, dt: real)
    requires 0.0 <= dt * 2.0 <= 1.0
    ensures TempStep(temperature, target, dt) == SmoothValue(temperature, target, dt * 2.0)
    ensures Min(temperature, target) <= TempStep(temperature, target, dt) <= Max(temperature, target)
    ensures Abs(target - TempStep(temperature, target, dt)) <= Abs(target - temperature)
  {
    assert (target - temperature) * dt * 2.0 == (target - temperature) * (dt * 2.0);
    SmoothValueBetween(temperature, target, dt * 2.0);
  }

  /** What `SimpleThermophilicCell.update` reads and writes. */
  datatype CellState = CellState(
    pos: Vec3, temperature: real, targetTemp: real, energy: real, active: bool, color: Rgb, phase: real)

  /** A freshly created cell: 25 degrees, full energy, active and green. */
  function NewCell(pos: Vec3, phase: real): (c: CellState)
    ensures c.pos == pos && c.temperature == 25.0 && c.targetTemp == 25.0
    ensures c.energy == 100.0 && c.active && c.color == Cool && c.phase == phase
  {
    CellState(pos, 25.0, 25.0, 100.0, true, Cool, phase)
  }

  /** The mouse acts on a cell closer than 3 units. */
  predicate NearMouse(sqrt: real -> real, pos: Vec3, mouse: Option<Vec3>)
    requires IsSqrt(sqrt)
  {
    mouse.Some? && sqrt(SqDist3(pos, mouse.value)) < 3.0
  }

  /** Nearness is a test on the squared distance, no root needed. */
  lemma NearMouseSquared(sqrt: real -> real, pos: Vec3, mouse: Option<Vec3>)
    requires IsSqrt(sqrt)
    ensures NearMouse(sqrt, pos, mouse) <==> mouse.Some? && SqDist3(pos, mouse.value) < 9.0
  {
    if mouse.Some? {
      RootBelow(sqrt, SqDist3(pos, mouse.value), 3.0);
    }
  }

  /** The pull of a near mouse: each coordinate moves by its gap times the
      influence `1 - d / 3`, times `dt / 2`. */
  function Attracted(pos: Vec3, mouse: Vec3, d: real, dt: real): Vec3 {
    var influence := Max(0.0, 1.0 - d / 3.0);
    Vec3(pos.x + (mouse.x - pos.x) * influence * dt * 0.5,
         pos.y + (mouse.y - pos.y) * influence * dt * 0.5,
         pos.z + (mouse.z - pos.z) * influence * dt * 0.5)
  }

  /** The energy and activity after the mouse and the drain: a near mouse adds
      `10 * dt` up to 100 and activates; an active cell then loses `5 * dt` and
      is exhausted at or below 0. */
  function Energized(energy: real, active: bool, near: bool, dt: real): (r: (real, bool))
    ensures !near && !active ==> r == (energy, false)
    ensures near ==> r.0 == Min(100.0, energy + 10.0 * dt) - dt * 5.0 && r.1 == (r.0 > 0.0)
    ensures !near && active ==> r.0 == energy - dt * 5.0 && r.1 == (r.0 > 0.0)
    ensures 0.0 <= dt && energy <= 100.0 ==> r.0 <= 100.0
  {
    var charged := if near then Min(100.0, energy + 10.0 * dt) else energy;
    var awake := near || active;
    if awake then
      var drained := charged - dt * 5.0;
      (drained, drained > 0.0)
    else (charged, awake)
  }

  /** The mouse part of `SimpleThermophilicCell.update`: a near mouse
      recharges `10 * dt` up to 100, activates, and pulls the cell. */
  function MouseStep(sqrt: real -> real, c: CellState, dt: real, mouse: Option<Vec3>): (r: CellState)
    requires IsSqrt(sqrt)
    ensures !NearMouse(sqrt, c.pos, mouse) ==> r == c
    ensures NearMouse(sqrt, c.pos, mouse) ==> r.energy == Min(100.0, c.energy + 10.0 * dt) && r.active
    ensures r.temperature == c.temperature && r.targetTemp == c.targetTemp && r.color == c.color && r.phase == c.phase
  {
    if NearMouse(sqrt, c.pos, mouse) then
      c.(energy := Min(100.0, c.energy + 10.0 * dt), active := true,
         pos := Attracted(c.pos, mouse.value, sqrt(SqDist3(c.pos, mouse.value)), dt))
    else c
  }

  /** The thermal part: the stage's target, the temperature step, and the
      colour of the new temperature. */
  function HeatStep(c: CellState, stage: PcrStage, dt: real): (r: CellState)
    ensures r.targetTemp == TargetTemp(stage) && r.color == CellColor(r.temperature)
    ensures r.pos == c.pos && r.energy == c.energy && r.active == c.active && r.phase == c.phase
  {
    var t := TempStep(c.temperature, TargetTemp(stage), dt);
    c.(targetTemp := TargetTemp(stage), temperature := t, color := CellColor(t))
  }

  /** The drain: an active cell loses `5 * dt` and turns grey once exhausted. */
  function DrainStep(c: CellState, dt: real): (r: CellState)
    ensures !c.active ==> r == c
    ensures c.active ==> r.energy == c.energy - dt * 5.0 && (r.active <==> r.energy > 0.0)
    ensures c.active && !r.active ==> r.color == Depleted
    ensures r.active ==> r.color == c.color
    ensures r.pos == c.pos && r.temperature == c.temperature && r.targetTemp == c.targetTemp && r.phase == c.phase
  {
    if c.active then
      var e := c.energy - dt * 5.0;
      if e <= 0.0 then c.(energy := e, active := false, color := Depleted) else c.(energy := e)
    else c
  }

  /** The animation: the phase advances by `2 * dt` and `y` wobbles by its sine. */
  function WobbleStep(sin: real -> real, c: CellState, dt: real): (r: CellState)
    ensures r.phase == c.phase + dt * 2.0 && r.pos.x == c.pos.x && r.pos.z == c.pos.z
    ensures r.temperature == c.temperature && r.targetTemp == c.targetTemp
    ensures r.energy == c.energy && r.active == c.active && r.color == c.color
  {
    var phase := c.phase + dt * 2.0;
    c.(phase := phase, pos := c.pos.(y := c.pos.y + sin(phase) * dt * 0.1))
  }

  /** `SimpleThermophilicCell.update`: the mouse, the heat, the drain and the wobble. */
  function CellStep(sqrt: real -> real, sin: real -> real, c: CellState, dt: real, stage: PcrStage, mouse: Option<Vec3>): CellState
    requires IsSqrt(sqrt)
  {
    WobbleStep(sin, DrainStep(HeatStep(MouseStep(sqrt, c, dt, mouse), stage, dt), dt), dt)
  }

  /** What one update promises: the temperature steps toward the stage's target;
      the energy and activity follow the recharge-then-drain rule; a cell that
      ends active shows the colour of its temperature and one exhausted in this
      update is grey; a cell out of the mouse's reach keeps its `x` and `z`. */
  lemma CellStepProperties(sqrt: real -> real, sin: real -> real, c: CellState, dt: real, stage: PcrStage, mouse: Option<Vec3>)
    requires IsSqrt(sqrt)
    ensures var r := CellStep(sqrt, sin, c, dt, stage, mouse);
      && r.targetTemp == TargetTemp(stage)
      && r.temperature == TempStep(c.temperature, TargetTemp(stage), dt)
      && (r.energy, r.active) == Energized(c.energy, c.active, NearMouse(sqrt, c.pos, mouse), dt)
      && (r.active ==> r.color == CellColor(r.temperature))
      && ((c.active || NearMouse(sqrt, c.pos, mouse)) && !r.active ==> r.color == Depleted)
      && (!NearMouse(sqrt, c.pos, mouse) ==> r.pos.x == c.pos.x && r.pos.z == c.pos.z)
      && r.phase == c.phase + dt * 2.0
  {
    var m := MouseStep(sqrt, c, dt, mouse);
    var h := HeatStep(m, stage, dt);
    var d := DrainStep(h, dt);
    assert h.temperature == TempStep(c.temperature, TargetTemp(stage), dt);
  }

  /** An exhausted cell out of the mouse's reach stays exhausted and keeps its energy. */
  lemma ExhaustedStaysExhausted(sqrt: real -> real, sin: real -> real, c: CellState, dt: real, stage: PcrStage, mouse: Option<Vec3>)
    requires IsSqrt(sqrt) && !c.active && !NearMouse(sqrt, c.pos, mouse)
    ensures var r := CellStep(sqrt, sin, c, dt, stage, mouse); !r.active && r.energy == c.energy
  {
  }

  /** `reset_simulation` on one cell: 25 degrees, full energy, active, and back
      at its original position; target, colour and phase stay. */
  function ResetCell(c: CellState, origin: Vec3): (r: CellState)
    ensures r.temperature == 25.0 && r.energy == 100.0 && r.active && r.pos == origin
    ensures r.targetTemp == c.targetTemp && r.color == c.color && r.phase == c.phase
  {
    c.(temperature := 25.0, energy := 100.0, active := true, pos := origin)
  }

  class SimpleCell {
    var x: real
    var y: real
    var z: real
    const original: Vec3
    var temperature: real
    var targetTemp: real
    var energy: real
    var active: bool
    var color: Rgb
    var animationPhase: real

    function State(): CellState
      reads this
    {
      CellState(Vec3(x, y, z), temperature, targetTemp, energy, active, color, animationPhase)
    }

    constructor (pos: Vec3, phase: real)
      ensures State() == NewCell(pos, phase) && original == pos
    {
      x, y, z := pos.x, pos.y, pos.z;
      original := pos;
      temperature := 25.0;
      targetTemp := 25.0;
      energy := 100.0;
      active := true;
      color := Cool;
      animationPhase := phase;
    }

    method Update(sqrt: real -> real, sin: real -> real, dt: real, stage: PcrStage, mouse: Option<Vec3>)
      requires IsSqrt(sqrt)
      modifies this
      ensures State() == CellStep(sqrt, sin, old(State()), dt, stage, mouse)
    {
      ApplyMouse(sqrt, dt, mouse);
      Heat(stage, dt);
      Drain(dt);
      animationPhase := animationPhase + dt * 2.0;
      y := y + sin(animationPhase) * dt * 0.1;
    }

    /** The mouse block of `update`. */
    method ApplyMouse(sqrt: real -> real, dt: real, mouse: Option<Vec3>)
      requires IsSqrt(sqrt)
      modifies this
      ensures State() == MouseStep(sqrt, old(State()), dt, mouse)
    {
      if mouse.Some? {
        var m := mouse.value;
        var distance := sqrt(SqDist3(Vec3(x, y, z), m));
        if distance < 3.0 {
          energy := Min(100.0, energy + 10.0 * dt);
          active := true;
          Pull(m, distance, dt);
        }
      }
    }

    /** The attraction toward a near mouse at distance `distance`. */
    method Pull(m: Vec3, distance: real, dt: real)
      modifies this`x, this`y, this`z
      ensures Vec3(x, y, z) == Attracted(old(Vec3(x, y, z)), m, distance, dt)
    {
      var influence := Max(0.0, 1.0 - distance / 3.0);
      x := x + (m.x - x) * influence * dt * 0.5;
      y := y + (m.y - y) * influence * dt * 0.5;
      z := z + (m.z - z) * influence * dt * 0.5;
    }

    /** One cell's part of `reset_simulation`. */
    method Reset()
      modifies this
      ensures State() == ResetCell(old(State()), original)
    {
      temperature := 25.0;
      energy := 100.0;
      active := true;
      x := original.x;
      y := original.y;
      z := original.z;
    }

    /** The target, temperature and colour block of `update`. */
    method Heat(stage: PcrStage, dt: real)
      modifies this
      ensures State() == HeatStep(old(State()), stage, dt)
    {
      targetTemp := TargetTemp(stage);
      var tempDiff := targetTemp - temperature;
      temperature := temperature + tempDiff * dt * 2.0;
      color := CellColor(temperature);
    }

    /** The energy block of `update`. */
    method Drain(dt: real)
      modifies this
      ensures State() == DrainStep(old(State()), dt)
    {
      if active {
        energy := energy - dt * 5.0;
        if energy <= 0.0 {
          active := false;
          color := Depleted;
        }
      }
    }
  }

  // ---------------------------------------------------------------- the simulation

  /** Seconds spent in each stage before the timer advances it. */
  const StageDuration := 3.0

  /** The stage clock of `update`: the timer grows by `dt` and, once it reaches
      three seconds, the stage advances once and the timer restarts at 0. */
  function Clock(stage: PcrStage, timer: real, cycles: nat, dt: real): (r: (PcrStage, real, nat))
    ensures timer + dt < StageDuration ==> r == (stage, timer + dt, cycles)
    ensures timer + dt >= StageDuration ==> (r.0, r.2) == NextStage(stage, cycles) && r.1 == 0.0
  {
    if timer + dt >= StageDuration then
      var (s, n) := NextStage(stage, cycles); (s, 0.0, n)
    else (stage, timer + dt, cycles)
  }

  /** From a timer below three seconds, a step shorter than three seconds
      leaves the timer below three seconds again. */
  lemma ClockBounded(stage: PcrStage, timer: real, cycles: nat, dt: real)
    requires 0.0 <= timer < StageDuration && 0.0 <= dt < StageDuration
    ensures 0.0 <= Clock(stage, timer, cycles, dt).1 < StageDuration
  {
  }

  // ---------------------------------------------------------------- events

  /** The pygame events `handle_events` reacts to. A motion carries the
      cursor, its displacement since the last motion and whether the left
      button is held; a button event carries pygame's button number. */
  datatype SimEvent =
    | Quit | KeyEscape | KeySpace | KeyP | KeyR | OtherKey
    | MouseMotion(pos: (int, int), rel: (int, int), leftHeld: bool)
    | ButtonDown(button: int) | ButtonUp(button: int)
    | OtherEvent

  /** A quit or the escape key ends the program. */
  predicate Stops(e: SimEvent) {
    e.Quit? || e.KeyEscape?
  }

  /** What the event handler changes, apart from the cells. */
  datatype Controls = Controls(
    stage: PcrStage, timer: real, cycles: nat, paused: bool,
    distance: real, rotX: real, rotY: real, mouse: Option<Vec3>, pressed: bool)

  /** A pixel coordinate `a` of a side of `n` pixels, divided by `n`. */
  lemma Fraction(a: int, n: nat)
    requires n > 0
    ensures 0 <= a < n ==> 0.0 <= a as real / n as real < 1.0
  {
    if 0 <= a < n {
      var q := a as real / n as real;
      DivSigns(a as real, n as real);
      DivMul(a as real, n as real);
      if q >= 1.0 {
        MulNonneg(q - 1.0, n as real);
      }
    }
  }

  /** A window pixel as a point of the scene's plane `z = 0`, which the window
      shows 16 units wide and 8 high, centred, with `y` growing upwards. */
  function CursorToScene(pos: (int, int), width: nat, height: nat): (p: Vec3)
    requires width > 0 && height > 0
    ensures 0 <= pos.0 < width ==> -8.0 <= p.x < 8.0
    ensures 0 <= pos.1 < height ==> -4.0 < p.y <= 4.0
    ensures p.z == 0.0
  {
    Fraction(pos.0, width);
    Fraction(pos.1, height);
    Vec3((pos.0 as real / width as real - 0.5) * 16.0, (0.5 - pos.1 as real / height as real) * 8.0, 0.0)
  }

  /** A mouse-pressure point is either absent or inside the region the window shows. */
  predicate InScene(m: Option<Vec3>) {
    m.None? || (-8.0 <= m.value.x < 8.0 && -4.0 < m.value.y <= 4.0 && m.value.z == 0.0)
  }

  /** The wheel: button 4 brings the camera half a unit closer but no closer
      than 2, button 5 takes it half a unit away but no further than 20, and
      other buttons leave it. */
  function WheelZoom(distance: real, button: int): (d: real)
    ensures 2.0 <= distance <= 20.0 ==> 2.0 <= d <= 20.0
    ensures button == 4 && distance >= 2.5 ==> d == distance - 0.5
    ensures button == 5 && distance <= 19.5 ==> d == distance + 0.5
    ensures button == 4 ==> d <= Max(distance, 2.0)
    ensures button == 5 ==> d >= Min(distance, 20.0)
    ensures button != 4 && button != 5 ==> d == distance
  {
    if button == 4 then Max(2.0, distance - 0.5)
    else if button == 5 then Min(20.0, distance + 0.5)
    else distance
  }

  /** One event of `handle_events` on a window `width` by `height` pixels: the
      space bar moves to the next stage, P pauses or resumes, R restarts the
      cycle (the cells are reset by the method), a drag with the left button
      rotates the camera and presses the mouse into the scene, the left button
      presses and releases, and the wheel zooms. */
  function EventStep(c: Controls, e: SimEvent, width: nat, height: nat): (r: Controls)
    requires width > 0 && height > 0
    ensures Stops(e) ==> r == c
    ensures 2.0 <= c.distance <= 20.0 ==> 2.0 <= r.distance <= 20.0
    ensures InScene(c.mouse) && (e.MouseMotion? ==> 0 <= e.pos.0 < width && 0 <= e.pos.1 < height) ==> InScene(r.mouse)
    ensures r.cycles == c.cycles || (e.KeySpace? && r.cycles == c.cycles + 1) || (e.KeyR? && r.cycles == 0)
    ensures r.paused == (c.paused != e.KeyP?)
  {
    match e
    case KeySpace =>
      var (s, n) := NextStage(c.stage, c.cycles);
      c.(stage := s, timer := 0.0, cycles := n)
    case KeyP => c.(paused := !c.paused)
    case KeyR => c.(stage := Cooling, timer := 0.0, cycles := 0)
    case MouseMotion(pos, rel, held) =>
      if held then
        c.(rotY := c.rotY + rel.0 as real * 0.01, rotX := c.rotX + rel.1 as real * 0.01,
           mouse := Some(CursorToScene(pos, width, height)))
      else c.(mouse := None)
    case ButtonDown(b) =>
      if b == 1 then c.(pressed := true) else c.(distance := WheelZoom(c.distance, b))
    case ButtonUp(b) =>
      if b == 1 then c.(pressed := false, mouse := None) else c
    case _ => c
  }

  /** The events in order. */
  function EventsStep(c: Controls, events: seq<SimEvent>, width: nat, height: nat): Controls
    requires width > 0 && height > 0
  {
    if events == [] then c
    else EventStep(EventsStep(c, events[..|events| - 1], width, height), events[|events| - 1], width, height)
  }

  /** The position of the first quit or escape, or the number of events when
      there is none: `handle_events` returns there, and the events after it
      are dropped. */
  function FirstStop(events: seq<SimEvent>): (n: nat)
    ensures n <= |events|
    ensures forall k :: 0 <= k < n ==> !Stops(events[k])
    ensures n < |events| ==> Stops(events[n])
  {
    if events == [] || Stops(events[0]) then 0
    else 1 + FirstStop(events[1..])
  }

  predicate ResetIn(events: seq<SimEvent>) {
    exists k :: 0 <= k < |events| && events[k].KeyR?
  }

  /** Over any run of events inside the window, the zoom stays in `[2, 20]`
      and the mouse point in the region the window shows; the simulation
      starts at distance 10 with no mouse point. */
  lemma {:induction false} EventsKeepRanges(c: Controls, events: seq<SimEvent>, width: nat, height: nat)
    requires width > 0 && height > 0
    requires 2.0 <= c.distance <= 20.0 && InScene(c.mouse)
    requires forall k :: 0 <= k < |events| && events[k].MouseMotion? ==>
      0 <= events[k].pos.0 < width && 0 <= events[k].pos.1 < height
    ensures 2.0 <= EventsStep(c, events, width, height).distance <= 20.0
    ensures InScene(EventsStep(c, events, width, height).mouse)
  {
    if events != [] {
      EventsKeepRanges(c, events[..|events| - 1], width, height);
    }
  }

  class Simulation {
    var currentStage: PcrStage
    var stageTimer: real
    var cycleCount: nat
    var cells: seq<SimpleCell>
    var mousePos: Option<Vec3>
    var mousePressed: bool
    var paused: bool
    const width: nat
    const height: nat
    var cameraDistance: real
    var cameraRotationX: real
    var cameraRotationY: real

    /** The window has pixels and the cells are distinct objects, so each
        update touches each cell once. */
    ghost predicate Valid()
      reads this
    {
      width > 0 && height > 0 &&
      forall i, j :: 0 <= i < j < |cells| ==> cells[i] != cells[j]
    }

    function ControlState(): Controls
      reads this
    {
      Controls(currentStage, stageTimer, cycleCount, paused, cameraDistance, cameraRotationX, cameraRotationY, mousePos, mousePressed)
    }

    /** A cooling simulation at cycle 0 in a window of `width` by `height`
        pixels, the camera 10 units away and unrotated, with one fresh cell per
        given position and phase. */
    constructor (width: nat, height: nat, seeds: seq<(Vec3, real)>)
      requires width > 0 && height > 0
      ensures Valid() && currentStage == Cooling && stageTimer == 0.0 && cycleCount == 0
      ensures this.width == width && this.height == height
      ensures cameraDistance == 10.0 && cameraRotationX == 0.0 && cameraRotationY == 0.0
      ensures mousePos == None && !mousePressed && !paused && |cells| == |seeds|
      ensures forall i :: 0 <= i < |cells| ==>
        fresh(cells[i]) && cells[i].State() == NewCell(seeds[i].0, seeds[i].1) && cells[i].original == seeds[i].0
    {
      currentStage := Cooling;
      stageTimer := 0.0;
      cycleCount := 0;
      this.width := width;
      this.height := height;
      cameraDistance := 10.0;
      cameraRotationX := 0.0;
      cameraRotationY := 0.0;
      mousePos := None;
      mousePressed := false;
      paused := false;
      var made: seq<SimpleCell> := [];
      var i := 0;
      while i < |seeds|
        invariant 0 <= i <= |seeds| && |made| == i
        invariant forall k, j :: 0 <= k < j < i ==> made[k] != made[j]
        invariant forall k :: 0 <= k < i ==>
          fresh(made[k]) && made[k].State() == NewCell(seeds[k].0, seeds[k].1) && made[k].original == seeds[k].0
      {
        var cell := new SimpleCell(seeds[i].0, seeds[i].1);
        made := made + [cell];
        i := i + 1;
      }
      cells := made;
    }

    /** `next_pcr_stage`. */
    method NextPcrStage()
      modifies this`currentStage, this`stageTimer, this`cycleCount
      ensures (currentStage, cycleCount) == NextStage(old(currentStage), old(cycleCount))
      ensures stageTimer == 0.0
    {
      match currentStage {
        case Cooling =>
          currentStage := Denaturation;
          stageTimer := 0.0;
        case Denaturation =>
          currentStage := Annealing;
          stageTimer := 0.0;
        case Annealing =>
          currentStage := Extension;
          stageTimer := 0.0;
        case Extension =>
          currentStage := Cooling;
          stageTimer := 0.0;
          cycleCount := cycleCount + 1;
      }
    }

    /** `reset_simulation`: the cycle restarts and every cell is reset. */
    method ResetSimulation()
      requires Valid()
      modifies this`currentStage, this`stageTimer, this`cycleCount, set c | c in cells
      ensures Valid()
      ensures currentStage == Cooling && stageTimer == 0.0 && cycleCount == 0
      ensures forall i :: 0 <= i < |cells| ==> cells[i].State() == ResetCell(old(cells[i].State()), cells[i].original)
    {
      currentStage := Cooling;
      stageTimer := 0.0;
      cycleCount := 0;
      var i := 0;
      while i < |cells|
        modifies set c | c in cells
        invariant 0 <= i <= |cells|
        invariant forall k :: 0 <= k < i ==> cells[k].State() == ResetCell(old(cells[k].State()), cells[k].original)
        invariant forall k :: i <= k < |cells| ==> cells[k].State() == old(cells[k].State())
      {
        cells[i].Reset();
        i := i + 1;
      }
    }

    /** `update`: nothing while paused; otherwise the stage clock ticks and
        every cell is updated with the stage it now shows and the mouse point. */
    method Update(sqrt: real -> real, sin: real -> real, dt: real)
      requires IsSqrt(sqrt) && Valid()
      modifies this`currentStage, this`stageTimer, this`cycleCount, set c | c in cells
      ensures Valid()
      ensures paused ==> unchanged(this) && forall i :: 0 <= i < |cells| ==> unchanged(cells[i])
      ensures !paused ==> (currentStage, stageTimer, cycleCount) == Clock(old(currentStage), old(stageTimer), old(cycleCount), dt)
      ensures !paused ==> forall i :: 0 <= i < |cells| ==>
        cells[i].State() == CellStep(sqrt, sin, old(cells[i].State()), dt, currentStage, mousePos)
    {
      if paused {
        return;
      }
      stageTimer := stageTimer + dt;
      if stageTimer >= StageDuration {
        NextPcrStage();
      }
      UpdateCells(sqrt, sin, dt);
    }

    /** The cell loop of `update`, with the stage the clock now shows. */
    method UpdateCells(sqrt: real -> real, sin: real -> real, dt: real)
      requires IsSqrt(sqrt) && Valid()
      modifies set c | c in cells
      ensures Valid()
      ensures forall i :: 0 <= i < |cells| ==>
        cells[i].State() == CellStep(sqrt, sin, old(cells[i].State()), dt, currentStage, mousePos)
    {
      var i := 0;
      while i < |cells|
        invariant 0 <= i <= |cells|
        invariant forall k :: 0 <= k < i ==> cells[k].State() == CellStep(sqrt, sin, old(cells[k].State()), dt, currentStage, mousePos)
        invariant forall k :: i <= k < |cells| ==> cells[k].State() == old(cells[k].State())
      {
        cells[i].Update(sqrt, sin, dt, currentStage, mousePos);
        i := i + 1;
      }
    }

    /** One event of `handle_events`: the controls change as `EventStep` says,
        and the R key also resets every cell. */
    method HandleEvent(e: SimEvent)
      requires Valid()
      modifies this`currentStage, this`stageTimer, this`cycleCount, this`paused, this`cameraDistance,
        this`cameraRotationX, this`cameraRotationY, this`mousePos, this`mousePressed, set c | c in cells
      ensures Valid()
      ensures ControlState() == EventStep(old(ControlState()), e, width, height)
      ensures forall i :: 0 <= i < |cells| ==>
        cells[i].State() == if e.KeyR? then ResetCell(old(cells[i].State()), cells[i].original) else old(cells[i].State())
    {
      match e {
        case KeySpace => NextPcrStage();
        case KeyP => paused := !paused;
        case KeyR => ResetSimulation();
        case MouseMotion(pos, rel, held) =>
          if held {
            cameraRotationY := cameraRotationY + rel.0 as real * 0.01;
            cameraRotationX := cameraRotationX + rel.1 as real * 0.01;
            var normalizedX := (pos.0 as real / width as real - 0.5) * 16.0;
            var normalizedY := (0.5 - pos.1 as real / height as real) * 8.0;
            mousePos := Some(Vec3(normalizedX, normalizedY, 0.0));
          } else {
            mousePos := None;
          }
        case ButtonDown(b) =>
          if b == 1 {
            mousePressed := true;
          } else if b == 4 {
            cameraDistance := Max(2.0, cameraDistance - 0.5);
          } else if b == 5 {
            cameraDistance := Min(20.0, cameraDistance + 0.5);
          }
        case ButtonUp(b) =>
          if b == 1 {
            mousePressed := false;
            mousePos := None;
          }
        case _ =>
      }
    }

    /** `handle_events`: the events are handled in order until a quit or an
        escape, which makes it return false at once; otherwise it returns true. */
    method HandleEvents(events: seq<SimEvent>) returns (keepRunning: bool)
      requires Valid()
      modifies this`currentStage, this`stageTimer, this`cycleCount, this`paused, this`cameraDistance,
        this`cameraRotationX, this`cameraRotationY, this`mousePos, this`mousePressed, set c | c in cells
      ensures Valid()
      ensures keepRunning <==> forall k :: 0 <= k < |events| ==> !Stops(events[k])
      ensures ControlState() == EventsStep(old(ControlState()), events[..FirstStop(events)], width, height)
      ensures forall i :: 0 <= i < |cells| ==>
        cells[i].State() == if ResetIn(events[..FirstStop(events)]) then ResetCell(old(cells[i].State()), cells[i].original) else old(cells[i].State())
    {
      var i := 0;
      while i < |events|
        invariant 0 <= i <= |events|
        invariant forall k :: 0 <= k < i ==> !Stops(events[k])
        invariant ControlState() == EventsStep(old(ControlState()), events[..i], width, height)
        invariant forall j :: 0 <= j < |cells| ==>
          cells[j].State() == if ResetIn(events[..i]) then ResetCell(old(cells[j].State()), cells[j].original) else old(cells[j].State())
      {
        if Stops(events[i]) {
          assert FirstStop(events) == i;
          return false;
        }
        assert events[..i + 1][..i] == events[..i];
        assert ResetIn(events[..i + 1]) <==> ResetIn(events[..i]) || events[i].KeyR? by {
          assert events[..i + 1][i] == events[i];
        }
        HandleEvent(events[i]);
        i := i + 1;
      }
      assert FirstStop(events) == |events|;
      assert events[..i] == events;
      return true;
    }
  }
}
