/** The camera-driven river projection of `videomapping_camera.py`: a motion
    detector reports where the camera saw movement, mapped onto a 1920 x 1080
    screen, and the application follows it, falling back to the mouse when
    there is none. */
module CameraRivers {
  import opened Geometry
  import opened Wrappers
  import opened RiverLines

  const ScreenWidth := 1920
  const ScreenHeight := 1080
  const CameraWidth := 640
  const CameraHeight := 480

  /** A camera pixel scaled to the screen and truncated; the camera image
      covers the screen exactly. */
  function ScreenPoint(cx: int, cy: int): (s: (int, int))
    ensures 0 <= cx ==> s.0 == 3 * cx
    ensures 0 <= cy ==> s.1 as real <= 2.25 * cy as real < s.1 as real + 1.0
    ensures 0 <= cx < CameraWidth ==> 0 <= s.0 < ScreenWidth
    ensures 0 <= cy < CameraHeight ==> 0 <= s.1 < ScreenHeight
  {
    var sx := cx as real / CameraWidth as real * ScreenWidth as real;
    var sy := cy as real / CameraHeight as real * ScreenHeight as real;
    assert sx == 3.0 * cx as real;
    assert sy == 2.25 * cy as real;
    (Trunc(sx), Trunc(sy))
  }

  class MovementDetector {
    var hasCapture: bool
    var cameraActive: bool
    var movementPosition: (int, int)
    var running: bool
    var movementDetected: bool

    /** No camera yet; movement defaults to the centre of the screen. */
    constructor ()
      ensures !hasCapture && !cameraActive && !running && !movementDetected
      ensures movementPosition == (ScreenWidth / 2, ScreenHeight / 2)
    {
      hasCapture := false;
      cameraActive := false;
      movementPosition := (960, 540);
      running := false;
      movementDetected := false;
    }

    /** What one frame of the camera loop leaves behind, given the area of the
        largest moving contour (none when nothing moved) and its centroid in
        camera pixels (none when its moment `m00` is 0): movement counts only
        above 500 square pixels, and the position only changes with a centroid. */
    method ObserveFrame(largestArea: Option<real>, centroid: Option<(int, int)>)
      modifies this`movementDetected, this`movementPosition
      ensures movementDetected <==> largestArea.Some? && largestArea.value > 500.0
      ensures movementDetected && centroid.Some? ==> movementPosition == ScreenPoint(centroid.value.0, centroid.value.1)
      ensures !(movementDetected && centroid.Some?) ==> movementPosition == old(movementPosition)
    {
      movementDetected := false;
      if largestArea.Some? {
        if largestArea.value > 500.0 {
          movementDetected := true;
          if centroid.Some? {
            var (cx, cy) := centroid.value;
            var screenX := Trunc(cx as real / CameraWidth as real * ScreenWidth as real);
            var screenY := Trunc(cy as real / CameraHeight as real * ScreenHeight as real);
            movementPosition := (screenX, screenY);
          }
        }
      }
    }

    /** `get_movement`: the last position, only while the camera is active and
        saw movement. */
    method GetMovement() returns (positions: seq<(int, int)>)
      ensures cameraActive && movementDetected ==> positions == [movementPosition]
      ensures !(cameraActive && movementDetected) ==> positions == []
    {
      if cameraActive && movementDetected {
        return [movementPosition];
      }
      return [];
    }

    /** `stop_camera`: the capture is released and nothing is detected any more. */
    method StopCamera()
      modifies this`running, this`cameraActive, this`hasCapture, this`movementDetected
      ensures !running && !cameraActive && !hasCapture && !movementDetected
    {
      running := false;
      cameraActive := false;
      if hasCapture {
        hasCapture := false;
      }
      movementDetected := false;
    }
  }

  class RiosRenderer {
    const width: nat
    const height: nat
    var mouseX: int
    var mouseY: int
    var mouseActive: bool
    var currentEffect: string

    constructor (width: nat, height: nat)
      ensures this.width == width && this.height == height
      ensures (mouseX, mouseY) == (width / 2, height / 2) && !mouseActive
      ensures currentEffect == Mapocho
    {
      this.width := width;
      this.height := height;
      mouseX, mouseY := width / 2, height / 2;
      mouseActive := false;
      currentEffect := Mapocho;
    }

    /** `update_movement`: the first detected position, or, with none, the
        old position made inactive. */
    method UpdateMovement(positions: seq<(int, int)>)
      modifies this`mouseX, this`mouseY, this`mouseActive
      ensures positions != [] ==> (mouseX, mouseY) == positions[0] && mouseActive
      ensures positions == [] ==> (mouseX, mouseY) == (old(mouseX), old(mouseY)) && !mouseActive
    {
      if positions != [] {
        mouseX, mouseY := positions[0].0, positions[0].1;
        mouseActive := true;
      } else {
        mouseActive := false;
      }
    }

    /** `update_mouse`: the cursor, active while the left button is down. */
    method UpdateMouse(pos: (int, int), pressed: bool)
      modifies this`mouseX, this`mouseY, this`mouseActive
      ensures (mouseX, mouseY) == pos && mouseActive == pressed
    {
      mouseX, mouseY := pos.0, pos.1;
      mouseActive := pressed;
    }

    method SwitchEffect()
      modifies this`currentEffect
      ensures currentEffect == Switched(old(currentEffect))
    {
      if currentEffect == Mapocho {
        currentEffect := Maipo;
      } else {
        currentEffect := Mapocho;
      }
    }
  }

  class VideomappingApp {
    const renderer: RiosRenderer
    const detector: MovementDetector
    var running: bool

    /** A full-HD renderer on the Mapocho and a detector whose camera is not
        started yet. */
    constructor ()
      ensures running && fresh(renderer) && fresh(detector)
      ensures renderer.width == ScreenWidth && renderer.height == ScreenHeight
      ensures renderer.currentEffect == Mapocho && !detector.cameraActive
    {
      renderer := new RiosRenderer(ScreenWidth, ScreenHeight);
      detector := new MovementDetector();
      running := true;
    }

    /** `update`: the camera's movement when there is some, otherwise the mouse. */
    method Update(mousePos: (int, int), mousePressed: bool)
      modifies renderer`mouseX, renderer`mouseY, renderer`mouseActive
      ensures detector.cameraActive && detector.movementDetected ==>
        (renderer.mouseX, renderer.mouseY) == detector.movementPosition && renderer.mouseActive
      ensures !(detector.cameraActive && detector.movementDetected) ==>
        (renderer.mouseX, renderer.mouseY) == mousePos && renderer.mouseActive == mousePressed
    {
      var movements := detector.GetMovement();
      if movements != [] {
        renderer.UpdateMovement(movements);
      } else {
        renderer.UpdateMouse(mousePos, mousePressed);
      }
    }
  }
}
