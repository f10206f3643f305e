/** The desktop platform's translation of window events into input events. */
module Native {
  import opened Ints
  import opened Options
  import opened Geometry
  import Input

  /** The windowing library's virtual key codes: every code the game maps,
      and a sample of the ones it does not. */
  datatype VirtualKeyCode =
    | A | B | C | D | E | F | G | H | I | J | K | L | M
    | N | O | P | Q | R | S | T | U | V | W | X | Y | Z
    | Space | Back | Return | Escape | Slash | Home | Delete | End
    | Left | Up | Right | Down
    | Key0 | Key1 | Key2 | Key3 | Key4 | Key5 | Key6 | Key7 | Key8 | Key9
    | F1 | F2 | F3 | F4 | F5 | F6 | F7 | F8 | F9 | F10 | F11 | F12
    | Tab | Insert | PageUp | PageDown | LShift | RShift | LControl | RControl | LAlt | RAlt
    | Comma | Period | Minus | Equals | Apostrophe | Semicolon

  /** `get_key` */
  function KeyOf(vk: VirtualKeyCode): Option<Input.Key> {
    match vk
    case A => Some(Input.Key.A) case B => Some(Input.Key.B) case C => Some(Input.Key.C) case D => Some(Input.Key.D)
    case E => Some(Input.Key.E) case F => Some(Input.Key.F) case G => Some(Input.Key.G) case H => Some(Input.Key.H)
    case I => Some(Input.Key.I) case J => Some(Input.Key.J) case K => Some(Input.Key.K) case L => Some(Input.Key.L)
    case M => Some(Input.Key.M) case N => Some(Input.Key.N) case O => Some(Input.Key.O) case P => Some(Input.Key.P)
    case Q => Some(Input.Key.Q) case R => Some(Input.Key.R) case S => Some(Input.Key.S) case T => Some(Input.Key.T)
    case U => Some(Input.Key.U) case V => Some(Input.Key.V) case W => Some(Input.Key.W) case X => Some(Input.Key.X)
    case Y => Some(Input.Key.Y) case Z => Some(Input.Key.Z)
    case Space => Some(Input.Key.Space)
    case Back => Some(Input.Key.Backspace)
    case Return => Some(Input.Key.Return)
    case Escape => Some(Input.Key.Escape)
    case Slash => Some(Input.Key.Slash)
    case Home => Some(Input.Key.Home)
    case Delete => Some(Input.Key.Delete)
    case End => Some(Input.Key.End)
    case Left => Some(Input.Key.Left)
    case Up => Some(Input.Key.Up)
    case Right => Some(Input.Key.Right)
    case Down => Some(Input.Key.Down)
    case _ => None
  }

  /** The code that produces each key: the table read the other way. */
  function CodeOfKey(k: Input.Key): VirtualKeyCode {
    match k
    case A => A case B => B case C => C case D => D case E => E case F => F
    case G => G case H => H case I => I case J => J case K => K case L => L
    case M => M case N => N case O => O case P => P case Q => Q case R => R
    case S => S case T => T case U => U case V => V case W => W case X => X
    case Y => Y case Z => Z
    case Space => Space case Backspace => Back case Return => Return case Escape => Escape
    case Slash => Slash case Home => Home case Delete => Delete case End => End
    case Left => VirtualKeyCode.Left case Up => Up case Right => VirtualKeyCode.Right case Down => Down
  }

  /** Every key is produced by some code ... */
  lemma EveryKeyHasCode(k: Input.Key)
    ensures KeyOf(CodeOfKey(k)) == Some(k)
  {
    HasCodeGroup1(k);
    HasCodeGroup2(k);
    HasCodeGroup3(k);
    HasCodeGroup4(k);
    HasCodeGroup5(k);
    HasCodeGroup6(k);
    HasCodeGroup7(k);
    HasCodeGroup8(k);
    HasCodeGroup9(k);
    HasCodeGroup10(k);
    HasCodeGroup11(k);
    HasCodeGroup12(k);
    HasCodeGroup13(k);
    HasCodeGroup14(k);
  }

  /** ... and by that code only. Every other code maps to nothing. */
  lemma OnlyItsCodeMapsToKey(vk: VirtualKeyCode, k: Input.Key)
    requires KeyOf(vk) == Some(k)
    ensures vk == CodeOfKey(k)
  {
    ReadsBackGroup1(vk);
    ReadsBackGroup2(vk);
    ReadsBackGroup3(vk);
    ReadsBackGroup4(vk);
    ReadsBackGroup5(vk);
    ReadsBackGroup6(vk);
    ReadsBackGroup7(vk);
    ReadsBackGroup8(vk);
    ReadsBackGroup9(vk);
    ReadsBackGroup10(vk);
    ReadsBackGroup11(vk);
    ReadsBackGroup12(vk);
    ReadsBackGroup13(vk);
    ReadsBackGroup14(vk);
  }

  /** Reading the table back from a mapped code gives that code. */
  predicate ReadsBack(vk: VirtualKeyCode) {
    KeyOf(vk).Some? ==> CodeOfKey(KeyOf(vk).value) == vk
  }

  // The table lemmas go a few keys at a time, which keeps each proof small:
  // the verifier unfolds the whole key table once per group, and one lemma
  // over every key at once costs more than the groups together. Each group
  // needs an empty body only; `EveryKeyHasCode` above combines them.

  lemma HasCodeGroup1(k: Input.Key)
    ensures k == Input.Key.A || k == Input.Key.B || k == Input.Key.C || k == Input.Key.D
            ==> KeyOf(CodeOfKey(k)) == Some(k)
  {
  }

  lemma HasCodeGroup2(k: Input.Key)
    ensures k == Input.Key.E || k == Input.Key.F || k == Input.Key.G || k == Input.Key.H
            ==> KeyOf(CodeOfKey(k)) == Some(k)
  {
  }

  lemma HasCodeGroup3(k: Input.Key)
    ensures k == Input.Key.I || k == Input.Key.J || k == Input.Key.K || k == Input.Key.L
            ==> KeyOf(CodeOfKey(k)) == Some(k)
  {
  }

  lemma HasCodeGroup4(k: Input.Key)
    ensures k == Input.Key.M || k == Input.Key.N || k == Input.Key.O
            ==> KeyOf(CodeOfKey(k)) == Some(k)
  {
  }

  lemma HasCodeGroup5(k: Input.Key)
    ensures k == Input.Key.P || k == Input.Key.Q || k == Input.Key.R
            ==> KeyOf(CodeOfKey(k)) == Some(k)
  {
  }

  lemma HasCodeGroup6(k: Input.Key)
    ensures k == Input.Key.S || k == Input.Key.T || k == Input.Key.U
            ==> KeyOf(CodeOfKey(k)) == Some(k)
  {
  }

  lemma HasCodeGroup7(k: Input.Key)
    ensures k == Input.Key.V || k == Input.Key.W || k == Input.Key.X
            ==> KeyOf(CodeOfKey(k)) == Some(k)
  {
  }

  lemma HasCodeGroup8(k: Input.Key)
    ensures k == Input.Key.Y || k == Input.Key.Z
            ==> KeyOf(CodeOfKey(k)) == Some(k)
  {
  }

  lemma HasCodeGroup9(k: Input.Key)
    ensures k == Input.Key.Space || k == Input.Key.Backspace
            ==> KeyOf(CodeOfKey(k)) == Some(k)
  {
  }

  lemma HasCodeGroup10(k: Input.Key)
    ensures k == Input.Key.Return || k == Input.Key.Escape
            ==> KeyOf(CodeOfKey(k)) == Some(k)
  {
  }

  lemma HasCodeGroup11(k: Input.Key)
    ensures k == Input.Key.Slash || k == Input.Key.Home
            ==> KeyOf(CodeOfKey(k)) == Some(k)
  {
  }

  lemma HasCodeGroup12(k: Input.Key)
    ensures k == Input.Key.Delete || k == Input.Key.End
            ==> KeyOf(CodeOfKey(k)) == Some(k)
  {
  }

  lemma HasCodeGroup13(k: Input.Key)
    ensures k == Input.Key.Left || k == Input.Key.Up
            ==> KeyOf(CodeOfKey(k)) == Some(k)
  {
  }

  lemma HasCodeGroup14(k: Input.Key)
    ensures k == Input.Key.Right || k == Input.Key.Down
            ==> KeyOf(CodeOfKey(k)) == Some(k)
  {
  }

  lemma ReadsBackGroup1(vk: VirtualKeyCode)
    ensures vk == A || vk == B || vk == C || vk == D
            ==> ReadsBack(vk)
  {
  }

  lemma ReadsBackGroup2(vk: VirtualKeyCode)
    ensures vk == E || vk == F || vk == G || vk == H
            ==> ReadsBack(vk)
  {
  }

  lemma ReadsBackGroup3(vk: VirtualKeyCode)
    ensures vk == I || vk == J || vk == K || vk == L
            ==> ReadsBack(vk)
  {
  }

  lemma ReadsBackGroup4(vk: VirtualKeyCode)
    ensures vk == M || vk == N || vk == O
            ==> ReadsBack(vk)
  {
  }

  lemma ReadsBackGroup5(vk: VirtualKeyCode)
    ensures vk == P || vk == Q || vk == R
            ==> ReadsBack(vk)
  {
  }

  lemma ReadsBackGroup6(vk: VirtualKeyCode)
    ensures vk == S || vk == T || vk == U
            ==> ReadsBack(vk)
  {
  }

  lemma ReadsBackGroup7(vk: VirtualKeyCode)
    ensures vk == V || vk == W || vk == X
            ==> ReadsBack(vk)
  {
  }

  lemma ReadsBackGroup8(vk: VirtualKeyCode)
    ensures vk == Y || vk == Z
            ==> ReadsBack(vk)
  {
  }

  lemma ReadsBackGroup9(vk: VirtualKeyCode)
    ensures vk == Space || vk == Back
            ==> ReadsBack(vk)
  {
  }

  lemma ReadsBackGroup10(vk: VirtualKeyCode)
    ensures vk == Return || vk == Escape
            ==> ReadsBack(vk)
  {
  }

  lemma ReadsBackGroup11(vk: VirtualKeyCode)
    ensures vk == Slash || vk == Home
            ==> ReadsBack(vk)
  {
  }

  lemma ReadsBackGroup12(vk: VirtualKeyCode)
    ensures vk == Delete || vk == End
            ==> ReadsBack(vk)
  {
  }

  lemma ReadsBackGroup13(vk: VirtualKeyCode)
    ensures vk == VirtualKeyCode.Left || vk == Up
            ==> ReadsBack(vk)
  {
  }

  lemma ReadsBackGroup14(vk: VirtualKeyCode)
    ensures vk == VirtualKeyCode.Right || vk == Down
            ==> ReadsBack(vk)
  {
  }

  /** The windowing library's letter codes in alphabetical order. */
  const LETTER_CODES: seq<VirtualKeyCode> := [A, B, C, D, E, F, G, H, I, J, K, L, M, N, O, P, Q, R, S, T, U, V, W, X, Y, Z]

  /** The windowing library's codes A to Z map to the letter keys in order. */
  lemma LetterCodes(i: nat)
    requires i < 26
    ensures KeyOf(LETTER_CODES[i]) == Some(Input.LETTER_KEYS[i])
  {
    if 0 <= i < 9 { LetterCodesFrom1(i); }
    if 9 <= i < 18 { LetterCodesFrom2(i); }
    if 18 <= i < 26 { LetterCodesFrom3(i); }
  }

  lemma LetterCodesFrom1(i: nat)
    requires 0 <= i < 9
    ensures KeyOf(LETTER_CODES[i]) == Some(Input.LETTER_KEYS[i])
  {
    assert i == 0 || i == 1 || i == 2 || i == 3 || i == 4 || i == 5 || i == 6 || i == 7 || i == 8;
  }

  lemma LetterCodesFrom2(i: nat)
    requires 9 <= i < 18
    ensures KeyOf(LETTER_CODES[i]) == Some(Input.LETTER_KEYS[i])
  {
    assert i == 9 || i == 10 || i == 11 || i == 12 || i == 13 || i == 14 || i == 15 || i == 16 || i == 17;
  }

  lemma LetterCodesFrom3(i: nat)
    requires 18 <= i < 26
    ensures KeyOf(LETTER_CODES[i]) == Some(Input.LETTER_KEYS[i])
  {
    assert i == 18 || i == 19 || i == 20 || i == 21 || i == 22 || i == 23 || i == 24 || i == 25;
  }

  /** The windowing library's mouse buttons. */
  datatype GlutinMouseButton = Left | Middle | Right | Other(code: u8)

  /** `get_mouse_button`: same variant, and `Other` keeps its number. */
  function MouseButtonOf(b: GlutinMouseButton): (r: Input.MouseButton)
    ensures b.Left? <==> r.Left?
    ensures b.Middle? <==> r.Middle?
    ensures b.Right? <==> r.Right?
    ensures b.Other? <==> r.Other?
    ensures b.Other? ==> r.code == b.code
  {
    match b
    case Left => Input.MouseButton.Left
    case Middle => Input.MouseButton.Middle
    case Right => Input.MouseButton.Right
    case Other(n) => Input.MouseButton.Other(n)
  }

  datatype ElementState = Pressed | Released

  datatype MouseScrollDelta = LineDelta(x: real, y: real) | PixelDelta(px: real, py: real)

  /** The window events the loop looks at; everything else is `Ignored`. */
  datatype WindowEvent =
    | KeyboardInput(virtualKeycode: Option<VirtualKeyCode>, state: ElementState)
    | MouseInput(state: ElementState, button: GlutinMouseButton)
    | MouseWheel(delta: MouseScrollDelta)
    | CursorMoved(x: real, y: real)
    | Ignored

  /** The input event one window event pushes, if any. A press becomes a
      key or button down and a release a key or button up; a key without a
      virtual code or outside the table pushes nothing. The cursor position is
      converted to logical pixels at scale factor 1, which leaves it as it is. */
  function Translate(e: WindowEvent): (r: Option<Input.InputEvent>)
    ensures e.KeyboardInput? ==>
              (r.None? <==> e.virtualKeycode.None? || KeyOf(e.virtualKeycode.value).None?)
    ensures e.KeyboardInput? && r.Some? ==>
              && (r.value.KeyDown? <==> e.state == Pressed)
              && (r.value.KeyUp? <==> e.state == Released)
              && (r.value.KeyDown? || r.value.KeyUp?)
              && r.value.key == KeyOf(e.virtualKeycode.value).value
    ensures e.MouseInput? ==>
              && r.Some?
              && (r.value.MouseDown? <==> e.state == Pressed)
              && (r.value.MouseUp? <==> e.state == Released)
              && (r.value.MouseDown? || r.value.MouseUp?)
              && r.value.button == MouseButtonOf(e.button)
    ensures e.MouseWheel? && e.delta.LineDelta? ==>
              r == Some(Input.InputEvent.MouseWheel(Vector2(e.delta.x, e.delta.y)))
    ensures e.MouseWheel? && e.delta.PixelDelta? ==>
              r == Some(Input.InputEvent.MouseWheel(Vector2(e.delta.px, e.delta.py)))
    ensures e.CursorMoved? ==> r == Some(Input.InputEvent.MouseMove(Point2(e.x, e.y)))
    ensures e.Ignored? ==> r.None?
  {
    match e
    case KeyboardInput(vk, state) =>
      if vk.None? then None
      else
        (match KeyOf(vk.value)
         case Some(k) => Some(if state == Pressed then Input.InputEvent.KeyDown(k) else Input.InputEvent.KeyUp(k))
         case None => None)
    case MouseInput(state, button) =>
      var b := MouseButtonOf(button);
      Some(if state == Pressed then Input.InputEvent.MouseDown(b) else Input.InputEvent.MouseUp(b))
    case MouseWheel(delta) =>
      (match delta
       case LineDelta(x, y) => Some(Input.InputEvent.MouseWheel(Vector2(x, y)))
       case PixelDelta(x, y) => Some(Input.InputEvent.MouseWheel(Vector2(x, y))))
    case CursorMoved(x, y) => Some(Input.InputEvent.MouseMove(Point2(x, y)))
    case Ignored => None
  }
}
