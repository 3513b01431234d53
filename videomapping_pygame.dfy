/** The mouse-driven river projection of `videomapping_pygame.py`: the renderer
    remembers where the cursor was one frame ago, and the space bar switches
    between the channelled Mapocho and the open Maipo. */
module PygameRivers {
  import opened RiverLines

  class RiosRenderer {
    const width: nat
    const height: nat
    var time: real
    var mouseX: int
    var mouseY: int
    var mouseActive: bool
    var prevMouseX: int
    var prevMouseY: int
    var currentEffect: string

    /** The cursor starts at the centre of the screen, inactive, on the Mapocho. */
    constructor (width: nat, height: nat)
      ensures this.width == width && this.height == height && time == 0.0
      ensures (mouseX, mouseY) == (width / 2, height / 2) && !mouseActive
      ensures (prevMouseX, prevMouseY) == (width / 2, height / 2)
      ensures currentEffect == Mapocho
    {
      this.width := width;
      this.height := height;
      time := 0.0;
      mouseX, mouseY := width / 2, height / 2;
      mouseActive := false;
      prevMouseX, prevMouseY := width / 2, height / 2;
      currentEffect := Mapocho;
    }

    /** `update_mouse`: the current position becomes the previous one. */
    method UpdateMouse(pos: (int, int), active: bool)
      modifies this`mouseX, this`mouseY, this`mouseActive, this`prevMouseX, this`prevMouseY
      ensures (prevMouseX, prevMouseY) == (old(mouseX), old(mouseY))
      ensures (mouseX, mouseY) == pos && mouseActive == active
    {
      prevMouseX := mouseX;
      prevMouseY := mouseY;
      mouseX, mouseY := pos.0, pos.1;
      mouseActive := active;
    }

    method SwitchEffect()
      modifies this`currentEffect
      ensures currentEffect == Switched(old(currentEffect))
    {
      if currentEffect == Mapocho {
        currentEffect := Maipo;
      } else {
        currentEffect := Mapocho;
      }
    }
  }

  /** The keyboard and window events the application reacts to. */
  datatype RiverEvent = Quit | KeyEscape | KeySpace | KeyF11 | OtherEvent

  predicate Stops(e: RiverEvent) {
    e.Quit? || e.KeyEscape?
  }

  function SpaceCount(events: seq<RiverEvent>): nat {
    if events == [] then 0
    else SpaceCount(events[..|events| - 1]) + (if events[|events| - 1].KeySpace? then 1 else 0)
  }

  function SwitchedTimes(effect: string, n: nat): string {
    if n == 0 then effect else Switched(SwitchedTimes(effect, n - 1))
  }

  /** Only the parity of the number of switches matters. */
  lemma {:induction false} SwitchedTimesParity(effect: string, n: nat)
    requires effect == Mapocho || effect == Maipo
    ensures SwitchedTimes(effect, n) == if n % 2 == 0 then effect else Switched(effect)
  {
    if n > 0 {
      SwitchedTimesParity(effect, n - 1);
      SwitchedTwice(effect);
    }
  }

  class VideomappingApp {
    const renderer: RiosRenderer
    var running: bool

    /** A full-HD renderer on the Mapocho. */
    constructor ()
      ensures running && fresh(renderer)
      ensures renderer.width == 1920 && renderer.height == 1080 && renderer.currentEffect == Mapocho
    {
      renderer := new RiosRenderer(1920, 1080);
      running := true;
    }

    /** `handle_events`: every event is handled; a quit or escape stops the
        program and each space bar switches the river. */
    method HandleEvents(events: seq<RiverEvent>)
      modifies this`running, renderer`currentEffect
      ensures running == (old(running) && forall k :: 0 <= k < |events| ==> !Stops(events[k]))
      ensures renderer.currentEffect == SwitchedTimes(old(renderer.currentEffect), SpaceCount(events))
    {
      var i := 0;
      while i < |events|
        invariant 0 <= i <= |events|
        invariant running == (old(running) && forall k :: 0 <= k < i ==> !Stops(events[k]))
        invariant renderer.currentEffect == SwitchedTimes(old(renderer.currentEffect), SpaceCount(events[..i]))
      {
        assert events[..i + 1][..i] == events[..i];
        match events[i] {
          case Quit => running := false;
          case KeyEscape => running := false;
          case KeySpace => renderer.SwitchEffect();
          case KeyF11 =>
          case OtherEvent =>
        }
        i := i + 1;
      }
      assert events[..i] == events;
    }

    /** `update`: the cursor and the left button feed the renderer. */
    method Update(mousePos: (int, int), mousePressed: bool)
      modifies renderer`mouseX, renderer`mouseY, renderer`mouseActive, renderer`prevMouseX, renderer`prevMouseY
      ensures (renderer.prevMouseX, renderer.prevMouseY) == (old(renderer.mouseX), old(renderer.mouseY))
      ensures (renderer.mouseX, renderer.mouseY) == mousePos && renderer.mouseActive == mousePressed
    {
      renderer.UpdateMouse(mousePos, mousePressed);
    }
  }
}
