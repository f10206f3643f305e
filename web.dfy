/** The browser platform's translation of DOM events into input events. */
module Web {
  import opened Ints
  import opened Options
  import opened Geometry
  import opened Input

  /** `get_key_from_code`: the `KeyboardEvent.code` strings the game knows. */
  function KeyFromCode(code: string): Option<Key> {
    match code
    case "KeyA" => Some(A)
    case "KeyB" => Some(B)
    case "KeyC" => Some(C)
    case "KeyD" => Some(D)
    case "KeyE" => Some(E)
    case "KeyF" => Some(F)
    case "KeyG" => Some(G)
    case "KeyH" => Some(H)
    case "KeyI" => Some(I)
    case "KeyJ" => Some(J)
    case "KeyK" => Some(K)
    case "KeyL" => Some(L)
    case "KeyM" => Some(M)
    case "KeyN" => Some(N)
    case "KeyO" => Some(O)
    case "KeyP" => Some(P)
    case "KeyQ" => Some(Q)
    case "KeyR" => Some(R)
    case "KeyS" => Some(S)
    case "KeyT" => Some(T)
    case "KeyU" => Some(U)
    case "KeyV" => Some(V)
    case "KeyW" => Some(W)
    case "KeyX" => Some(X)
    case "KeyY" => Some(Y)
    case "KeyZ" => Some(Z)
    case "Space" => Some(Space)
    case "Backspace" => Some(Backspace)
    case "Enter" => Some(Return)
    case "Escape" => Some(Escape)
    case "Home" => Some(Home)
    case "Delete" => Some(Delete)
    case "End" => Some(End)
    case "Slash" => Some(Slash)
    case "ArrowLeft" => Some(Key.Left)
    case "ArrowUp" => Some(Up)
    case "ArrowRight" => Some(Key.Right)
    case "ArrowDown" => Some(Down)
    case _ => None
  }

  /** The code string of each key: the table read the other way. */
  function CodeOf(k: Key): string {
    match k
    case A => "KeyA" case B => "KeyB" case C => "KeyC" case D => "KeyD"
    case E => "KeyE" case F => "KeyF" case G => "KeyG" case H => "KeyH"
    case I => "KeyI" case J => "KeyJ" case K => "KeyK" case L => "KeyL"
    case M => "KeyM" case N => "KeyN" case O => "KeyO" case P => "KeyP"
    case Q => "KeyQ" case R => "KeyR" case S => "KeyS" case T => "KeyT"
    case U => "KeyU" case V => "KeyV" case W => "KeyW" case X => "KeyX"
    case Y => "KeyY" case Z => "KeyZ"
    case Space => "Space" case Backspace => "Backspace" case Return => "Enter"
    case Escape => "Escape" case Home => "Home" case Delete => "Delete"
    case End => "End" case Slash => "Slash"
    case Left => "ArrowLeft" case Up => "ArrowUp" case Right => "ArrowRight" case Down => "ArrowDown"
  }

  /** Every key has a code that maps to it. */
  lemma EveryKeyHasCode(k: Key)
    ensures KeyFromCode(CodeOf(k)) == Some(k)
  {
    HasCodeGroup1(k);
    HasCodeGroup2(k);
    HasCodeGroup3(k);
    HasCodeGroup4(k);
    HasCodeGroup5(k);
    HasCodeGroup6(k);
    HasCodeGroup7(k);
    HasCodeGroup8(k);
    HasCodeGroup9(k);
    HasCodeGroup10(k);
    HasCodeGroup11(k);
    HasCodeGroup12(k);
    HasCodeGroup13(k);
    HasCodeGroup14(k);
  }

  /** Only that code maps to it, and any string that is not one of the codes
      maps to nothing: the table is one-to-one. */
  lemma OnlyItsCodeMapsToKey(code: string, k: Key)
    requires KeyFromCode(code) == Some(k)
    ensures code == CodeOf(k)
  {
    OnlyCodeGroup1(code, k);
    OnlyCodeGroup2(code, k);
    OnlyCodeGroup3(code, k);
    OnlyCodeGroup4(code, k);
    OnlyCodeGroup5(code, k);
    OnlyCodeGroup6(code, k);
    OnlyCodeGroup7(code, k);
    OnlyCodeGroup8(code, k);
    OnlyCodeGroup9(code, k);
    OnlyCodeGroup10(code, k);
    OnlyCodeGroup11(code, k);
    OnlyCodeGroup12(code, k);
    OnlyCodeGroup13(code, k);
    OnlyCodeGroup14(code, k);
  }

  /** "KeyA" to "KeyZ" map to the letter keys in order. */
  lemma LetterCodes(i: nat)
    requires i < 26
    ensures KeyFromCode("Key" + [Letter(i)]) == Some(LETTER_KEYS[i])
  {
    LetterCode(i);
    EveryKeyHasCode(LETTER_KEYS[i]);
  }

  lemma LetterCode(i: nat)
    requires i < 26
    ensures CodeOf(LETTER_KEYS[i]) == "Key" + [Letter(i)]
  {
    if 0 <= i < 9 { LetterCodeFrom1(i); }
    if 9 <= i < 18 { LetterCodeFrom2(i); }
    if 18 <= i < 26 { LetterCodeFrom3(i); }
  }

  // The table lemmas go a few keys at a time, which keeps each proof small:
  // the verifier unfolds the whole key table once per group, and one lemma
  // over every key at once costs more than the groups together. Each group
  // needs an empty body only; `EveryKeyHasCode` above combines them.

  lemma HasCodeGroup1(k: Key)
    ensures k == Key.A || k == Key.B || k == Key.C || k == Key.D
            ==> KeyFromCode(CodeOf(k)) == Some(k)
  {
  }

  lemma HasCodeGroup2(k: Key)
    ensures k == Key.E || k == Key.F || k == Key.G || k == Key.H
            ==> KeyFromCode(CodeOf(k)) == Some(k)
  {
  }

  lemma HasCodeGroup3(k: Key)
    ensures k == Key.I || k == Key.J || k == Key.K || k == Key.L
            ==> KeyFromCode(CodeOf(k)) == Some(k)
  {
  }

  lemma HasCodeGroup4(k: Key)
    ensures k == Key.M || k == Key.N || k == Key.O
            ==> KeyFromCode(CodeOf(k)) == Some(k)
  {
  }

  lemma HasCodeGroup5(k: Key)
    ensures k == Key.P || k == Key.Q || k == Key.R
            ==> KeyFromCode(CodeOf(k)) == Some(k)
  {
  }

  lemma HasCodeGroup6(k: Key)
    ensures k == Key.S || k == Key.T || k == Key.U
            ==> KeyFromCode(CodeOf(k)) == Some(k)
  {
  }

  lemma HasCodeGroup7(k: Key)
    ensures k == Key.V || k == Key.W || k == Key.X
            ==> KeyFromCode(CodeOf(k)) == Some(k)
  {
  }

  lemma HasCodeGroup8(k: Key)
    ensures k == Key.Y || k == Key.Z
            ==> KeyFromCode(CodeOf(k)) == Some(k)
  {
  }

  lemma HasCodeGroup9(k: Key)
    ensures k == Key.Space || k == Key.Backspace
            ==> KeyFromCode(CodeOf(k)) == Some(k)
  {
  }

  lemma HasCodeGroup10(k: Key)
    ensures k == Key.Return || k == Key.Escape
            ==> KeyFromCode(CodeOf(k)) == Some(k)
  {
  }

  lemma HasCodeGroup11(k: Key)
    ensures k == Key.Slash || k == Key.Home
            ==> KeyFromCode(CodeOf(k)) == Some(k)
  {
  }

  lemma HasCodeGroup12(k: Key)
    ensures k == Key.Delete || k == Key.End
            ==> KeyFromCode(CodeOf(k)) == Some(k)
  {
  }

  lemma HasCodeGroup13(k: Key)
    ensures k == Key.Left || k == Key.Up
            ==> KeyFromCode(CodeOf(k)) == Some(k)
  {
  }

  lemma HasCodeGroup14(k: Key)
    ensures k == Key.Right || k == Key.Down
            ==> KeyFromCode(CodeOf(k)) == Some(k)
  {
  }

  lemma OnlyCodeGroup1(code: string, k: Key)
    ensures KeyFromCode(code) == Some(k) && (k == Key.A || k == Key.B || k == Key.C || k == Key.D)
            ==> code == CodeOf(k)
  {
  }

  lemma OnlyCodeGroup2(code: string, k: Key)
    ensures KeyFromCode(code) == Some(k) && (k == Key.E || k == Key.F || k == Key.G || k == Key.H)
            ==> code == CodeOf(k)
  {
  }

  lemma OnlyCodeGroup3(code: string, k: Key)
    ensures KeyFromCode(code) == Some(k) && (k == Key.I || k == Key.J || k == Key.K || k == Key.L)
            ==> code == CodeOf(k)
  {
  }

  lemma OnlyCodeGroup4(code: string, k: Key)
    ensures KeyFromCode(code) == Some(k) && (k == Key.M || k == Key.N || k == Key.O)
            ==> code == CodeOf(k)
  {
  }

  lemma OnlyCodeGroup5(code: string, k: Key)
    ensures KeyFromCode(code) == Some(k) && (k == Key.P || k == Key.Q || k == Key.R)
            ==> code == CodeOf(k)
  {
  }

  lemma OnlyCodeGroup6(code: string, k: Key)
    ensures KeyFromCode(code) == Some(k) && (k == Key.S || k == Key.T || k == Key.U)
            ==> code == CodeOf(k)
  {
  }

  lemma OnlyCodeGroup7(code: string, k: Key)
    ensures KeyFromCode(code) == Some(k) && (k == Key.V || k == Key.W || k == Key.X)
            ==> code == CodeOf(k)
  {
  }

  lemma OnlyCodeGroup8(code: string, k: Key)
    ensures KeyFromCode(code) == Some(k) && (k == Key.Y || k == Key.Z)
            ==> code == CodeOf(k)
  {
  }

  lemma OnlyCodeGroup9(code: string, k: Key)
    ensures KeyFromCode(code) == Some(k) && (k == Key.Space || k == Key.Backspace)
            ==> code == CodeOf(k)
  {
  }

  lemma OnlyCodeGroup10(code: string, k: Key)
    ensures KeyFromCode(code) == Some(k) && (k == Key.Return || k == Key.Escape)
            ==> code == CodeOf(k)
  {
  }

  lemma OnlyCodeGroup11(code: string, k: Key)
    ensures KeyFromCode(code) == Some(k) && (k == Key.Slash || k == Key.Home)
            ==> code == CodeOf(k)
  {
  }

  lemma OnlyCodeGroup12(code: string, k: Key)
    ensures KeyFromCode(code) == Some(k) && (k == Key.Delete || k == Key.End)
            ==> code == CodeOf(k)
  {
  }

  lemma OnlyCodeGroup13(code: string, k: Key)
    ensures KeyFromCode(code) == Some(k) && (k == Key.Left || k == Key.Up)
            ==> code == CodeOf(k)
  {
  }

  lemma OnlyCodeGroup14(code: string, k: Key)
    ensures KeyFromCode(code) == Some(k) && (k == Key.Right || k == Key.Down)
            ==> code == CodeOf(k)
  {
  }

  lemma LetterCodeFrom1(i: nat)
    requires 0 <= i < 9
    ensures CodeOf(LETTER_KEYS[i]) == "Key" + [Letter(i)]
  {
    assert i == 0 || i == 1 || i == 2 || i == 3 || i == 4 || i == 5 || i == 6 || i == 7 || i == 8;
  }

  lemma LetterCodeFrom2(i: nat)
    requires 9 <= i < 18
    ensures CodeOf(LETTER_KEYS[i]) == "Key" + [Letter(i)]
  {
    assert i == 9 || i == 10 || i == 11 || i == 12 || i == 13 || i == 14 || i == 15 || i == 16 || i == 17;
  }

  lemma LetterCodeFrom3(i: nat)
    requires 18 <= i < 26
    ensures CodeOf(LETTER_KEYS[i]) == "Key" + [Letter(i)]
  {
    assert i == 18 || i == 19 || i == 20 || i == 21 || i == 22 || i == 23 || i == 24 || i == 25;
  }

  /** `get_mouse_button`: `MouseEvent.button` 0, 1 and 2 are the left, middle
      and right buttons; any other number is kept as `n as u8`, its low byte. */
  function MouseButtonOf(button: i16): (b: MouseButton)
    ensures button == 0 <==> b == MouseButton.Left
    ensures button == 1 <==> b == MouseButton.Middle
    ensures button == 2 <==> b == MouseButton.Right
    ensures b.Other? <==> !(0 <= button <= 2)
    ensures b.Other? ==> (b.code as int - button as int) % 0x100 == 0
  {
    match button
    case 0 => MouseButton.Left
    case 1 => MouseButton.Middle
    case 2 => MouseButton.Right
    case n => MouseButton.Other(LowByte(n))
  }

  /** The DOM events the page listens to, with the fields the game reads. */
  datatype HtmlEvent =
    | KeyDown(code: string)
    | KeyUp(code: string)
    | MouseDown(button: i16)
    | MouseUp(button: i16)
    | MouseMove(offsetX: i32, offsetY: i32)
    | MouseWheel(deltaX: real, deltaY: real)

  /** The callback given to `HtmlEventStream::new`: the input event one DOM
      event pushes, if any. A key whose code is not in the table pushes
      nothing, and the wheel's vertical delta is negated. */
  function Translate(e: HtmlEvent): (r: Option<InputEvent>)
    ensures (e.KeyDown? || e.KeyUp?) ==> (r.None? <==> KeyFromCode(e.code).None?)
    ensures e.KeyDown? && r.Some? ==> r.value == InputEvent.KeyDown(KeyFromCode(e.code).value)
    ensures e.KeyUp? && r.Some? ==> r.value == InputEvent.KeyUp(KeyFromCode(e.code).value)
    ensures e.MouseDown? ==> r == Some(InputEvent.MouseDown(MouseButtonOf(e.button)))
    ensures e.MouseUp? ==> r == Some(InputEvent.MouseUp(MouseButtonOf(e.button)))
    ensures e.MouseMove? ==> r == Some(InputEvent.MouseMove(Point2(e.offsetX as real, e.offsetY as real)))
    ensures e.MouseWheel? ==> r == Some(InputEvent.MouseWheel(Vector2(e.deltaX, -e.deltaY)))
    ensures !(e.KeyDown? || e.KeyUp?) ==> r.Some?
  {
    match e
    case KeyDown(code) =>
      (match KeyFromCode(code) case Some(k) => Some(InputEvent.KeyDown(k)) case None => None)
    case KeyUp(code) =>
      (match KeyFromCode(code) case Some(k) => Some(InputEvent.KeyUp(k)) case None => None)
    case MouseDown(b) => Some(InputEvent.MouseDown(MouseButtonOf(b)))
    case MouseUp(b) => Some(InputEvent.MouseUp(MouseButtonOf(b)))
    case MouseMove(x, y) => Some(InputEvent.MouseMove(Point2(x as real, y as real)))
    case MouseWheel(dx, dy) => Some(InputEvent.MouseWheel(Vector2(dx, -dy)))
  }

  /** A key event reaches the game as the same kind of event for the key its
      code names, in both directions. */
  lemma KeyEventRoundTrip(k: Key)
    ensures Translate(HtmlEvent.KeyDown(CodeOf(k))) == Some(InputEvent.KeyDown(k))
    ensures Translate(HtmlEvent.KeyUp(CodeOf(k))) == Some(InputEvent.KeyUp(k))
  {
    EveryKeyHasCode(k);
  }
}
