/** The game's per-tick update: WASD key events switch four movement flags,
    the flags give a direction, and the player moves 100 units per second
    along it. */
module Game {
  import opened Geometry
  import opened Input

  /** `TICK_DT`: the game ticks 60 times a second. */
  const TICK_DT: real := 1.0 / 60.0

  /** `100.`: the player's speed in units per second. */
  const SPEED: real := 100.0

  /** The four WASD flags. */
  datatype Controls = Controls(up: bool, left: bool, down: bool, right: bool)

  /** `Controls::default()`: nothing held. */
  const NO_CONTROLS: Controls := Controls(false, false, false, false)

  /** The four flags, by name, and the key that drives each. */
  datatype Flag = UpFlag | LeftFlag | DownFlag | RightFlag

  function FlagKey(f: Flag): Key {
    match f
    case UpFlag => W
    case LeftFlag => A
    case DownFlag => S
    case RightFlag => D
  }

  function Get(c: Controls, f: Flag): bool {
    match f
    case UpFlag => c.up
    case LeftFlag => c.left
    case DownFlag => c.down
    case RightFlag => c.right
  }

  /** An event that sets or clears flag `f`. */
  predicate Drives(e: InputEvent, f: Flag) {
    (e.KeyDown? || e.KeyUp?) && e.key == FlagKey(f)
  }

  /** One arm of the `match input`. */
  function ApplyEvent(c: Controls, e: InputEvent): Controls {
    match e
    case KeyDown(W) => c.(up := true)
    case KeyUp(W) => c.(up := false)
    case KeyDown(A) => c.(left := true)
    case KeyUp(A) => c.(left := false)
    case KeyDown(S) => c.(down := true)
    case KeyUp(S) => c.(down := false)
    case KeyDown(D) => c.(right := true)
    case KeyUp(D) => c.(right := false)
    case _ => c
  }

  /** The events of one batch, in order. */
  function ApplyEvents(c: Controls, es: seq<InputEvent>): Controls
    decreases |es|
  {
    if es == [] then c else ApplyEvent(ApplyEvents(c, es[..|es| - 1]), es[|es| - 1])
  }

  /** A driving event sets its flag (to true on key down, false on key up) and
      leaves the other three alone; any other event changes nothing. */
  lemma ApplyEventEffect(c: Controls, e: InputEvent, f: Flag)
    ensures Drives(e, f) ==> Get(ApplyEvent(c, e), f) == e.KeyDown?
    ensures !Drives(e, f) ==> Get(ApplyEvent(c, e), f) == Get(c, f)
  {
  }

  /** An event driving no flag leaves the controls as they were. */
  lemma OtherEventsIgnored(c: Controls, e: InputEvent)
    requires forall f: Flag :: !Drives(e, f)
    ensures ApplyEvent(c, e) == c
  {
    ApplyEventEffect(c, e, UpFlag);
    ApplyEventEffect(c, e, LeftFlag);
    ApplyEventEffect(c, e, DownFlag);
    ApplyEventEffect(c, e, RightFlag);
  }

  /** After a batch, each flag holds the value the last event driving it gave
      it ... */
  lemma {:induction false} LastEventWins(c: Controls, es: seq<InputEvent>, f: Flag, i: nat)
    requires i < |es| && Drives(es[i], f)
    requires forall j :: i < j < |es| ==> !Drives(es[j], f)
    ensures Get(ApplyEvents(c, es), f) == es[i].KeyDown?
    decreases |es|
  {
    var last := |es| - 1;
    ApplyEventEffect(ApplyEvents(c, es[..last]), es[last], f);
    if i < last {
      LastEventWins(c, es[..last], f, i);
    }
  }

  /** ... and keeps its earlier value when no event of the batch drives it. */
  lemma {:induction false} UndrivenFlagKept(c: Controls, es: seq<InputEvent>, f: Flag)
    requires forall j :: 0 <= j < |es| ==> !Drives(es[j], f)
    ensures Get(ApplyEvents(c, es), f) == Get(c, f)
    decreases |es|
  {
    if es != [] {
      var last := |es| - 1;
      ApplyEventEffect(ApplyEvents(c, es[..last]), es[last], f);
      UndrivenFlagKept(c, es[..last], f);
    }
  }

  /** The direction the flags ask for: `dir.x = [right] - [left]` and
      `dir.y = [up] - [down]`. */
  function Direction(c: Controls): (d: Vector2)
    ensures d.x in {-1.0, 0.0, 1.0} && d.y in {-1.0, 0.0, 1.0}
    ensures d.x == 0.0 <==> c.right == c.left
    ensures d.y == 0.0 <==> c.up == c.down
    ensures d.x == 1.0 <==> c.right && !c.left
    ensures d.y == 1.0 <==> c.up && !c.down
  {
    Vector2((if c.right then 1.0 else 0.0) - (if c.left then 1.0 else 0.0),
            (if c.up then 1.0 else 0.0) - (if c.down then 1.0 else 0.0))
  }

  /** `1 / sqrt(2)`, which normalising a diagonal direction divides by. */
  predicate IsInvSqrt2(r: real) {
    r > 0.0 && r * r == 0.5
  }

  /** `dir.normalize()` for a direction with components in {-1, 0, 1}: an
      axis direction is already of length one, a diagonal one is scaled by
      `1 / sqrt(2)`. */
  function Normalize(d: Vector2, invSqrt2: real): Vector2 {
    if d.x != 0.0 && d.y != 0.0 then Scale(d, invSqrt2) else d
  }

  /** The position after one step of `speed * dt` along `dir`: unchanged when
      `dir` is zero (`dir.length() > 0.` fails). */
  function Moved(p: Point2, dir: Vector2, step: real, invSqrt2: real): (q: Point2)
    ensures dir == Vector2(0.0, 0.0) ==> q == p
  {
    if SquaredLength(dir) > 0.0 then Translate(p, Scale(Normalize(dir, invSqrt2), step)) else p
  }

  /** Moving covers the same distance in every direction, diagonals included:
      the squared length of the displacement is `step * step`. */
  lemma MoveHasStepLength(p: Point2, c: Controls, step: real, invSqrt2: real)
    requires IsInvSqrt2(invSqrt2)
    requires Direction(c) != Vector2(0.0, 0.0)
    ensures var q := Moved(p, Direction(c), step, invSqrt2);
      SquaredLength(Vector2(q.x - p.x, q.y - p.y)) == step * step
  {
    var d := Direction(c);
    var n := Normalize(d, invSqrt2);
    assert SquaredLength(d) > 0.0;
    assert SquaredLength(n) == 1.0 by {
      if d.x != 0.0 && d.y != 0.0 {
        assert d.x * d.x == 1.0 && d.y * d.y == 1.0;
        assert n.x * n.x == d.x * d.x * (invSqrt2 * invSqrt2);
        assert n.y * n.y == d.y * d.y * (invSqrt2 * invSqrt2);
      }
    }
    var q := Moved(p, d, step, invSqrt2);
    assert q.x - p.x == n.x * step && q.y - p.y == n.y * step;
    assert (n.x * step) * (n.x * step) + (n.y * step) * (n.y * step) == SquaredLength(n) * (step * step);
  }

  /** The loop over the inputs and the `dir` that is built from the flags
      afterwards, shared by the game and the window's frame closure. */
  method FoldControls(c0: Controls, inputs: seq<InputEvent>) returns (c: Controls, dir: Vector2)
    ensures c == ApplyEvents(c0, inputs)
    ensures dir == Direction(c)
  {
    c := c0;
    for i := 0 to |inputs|
      invariant c == ApplyEvents(c0, inputs[..i])
    {
      assert inputs[..i + 1][..i] == inputs[..i];
      assert ApplyEvents(c0, inputs[..i + 1]) == ApplyEvent(c, inputs[i]);
      ghost var prev := c;
      var input := inputs[i];
      match input {
        case KeyDown(W) => c := c.(up := true);
        case KeyUp(W) => c := c.(up := false);
        case KeyDown(A) => c := c.(left := true);
        case KeyUp(A) => c := c.(left := false);
        case KeyDown(S) => c := c.(down := true);
        case KeyUp(S) => c := c.(down := false);
        case KeyDown(D) => c := c.(right := true);
        case KeyUp(D) => c := c.(right := false);
        case _ =>
      }
      assert c == ApplyEvent(prev, input);
    }
    assert inputs[..|inputs|] == inputs;
    dir := Vector2(0.0, 0.0);
    if c.up {
      dir := dir.(y := dir.y + 1.0);
    }
    if c.down {
      dir := dir.(y := dir.y - 1.0);
    }
    if c.right {
      dir := dir.(x := dir.x + 1.0);
    }
    if c.left {
      dir := dir.(x := dir.x - 1.0);
    }
  }

  /** `Game`, without its GL program, vertex buffer, mixer and sprite. */
  class Game {
    var controls: Controls
    var position: Point2

    /** `Game::new`: nothing held, the player at (100, 100). */
    constructor ()
      ensures controls == NO_CONTROLS && position == Point2(100.0, 100.0)
    {
      controls := NO_CONTROLS;
      position := Point2(100.0, 100.0);
    }

    /** `Game::update`: one tick. */
    method Update(inputs: seq<InputEvent>, invSqrt2: real)
      requires IsInvSqrt2(invSqrt2)
      modifies this
      ensures controls == ApplyEvents(old(controls), inputs)
      ensures position == Moved(old(position), Direction(controls), SPEED * TICK_DT, invSqrt2)
    {
      var dir;
      controls, dir := FoldControls(controls, inputs);
      if SquaredLength(dir) > 0.0 {
        position := Translate(position, Scale(Normalize(dir, invSqrt2), SPEED * TICK_DT));
      }
    }
  }
}
