/** The per-frame closure `main` hands to the platform's run loop: it keeps
    its own WASD flags and logo position and moves the logo by
    `100 * dt` per frame. */
module Entry {
  import opened Geometry
  import opened Input
  import opened Game

  /** The state the closure captures by `move`, without the GL program,
      vertex buffer and sprite. */
  class FrameClosure {
    var controls: Controls
    var position: Point2

    /** `Controls::default()` and `point2(50., 100.)`. */
    constructor ()
      ensures controls == NO_CONTROLS && position == Point2(50.0, 100.0)
    {
      controls := NO_CONTROLS;
      position := Point2(50.0, 100.0);
    }

    /** One call of the closure with the frame time `dt`. */
    method Call(dt: real, inputs: seq<InputEvent>, invSqrt2: real)
      requires IsInvSqrt2(invSqrt2)
      modifies this
      ensures controls == ApplyEvents(old(controls), inputs)
      ensures position == Moved(old(position), Direction(controls), SPEED * dt, invSqrt2)
    {
      var dir;
      controls, dir := FoldControls(controls, inputs);
      if SquaredLength(dir) > 0.0 {
        position := Translate(position, Scale(Normalize(dir, invSqrt2), SPEED * dt));
      }
    }
  }
}
