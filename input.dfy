/** The platform-independent input events the platform layers produce. */
module Input {
  import opened Ints
  import opened Geometry

  datatype Key =
    | A | B | C | D | E | F | G | H | I | J | K | L | M
    | N | O | P | Q | R | S | T | U | V | W | X | Y | Z
    | Space | Backspace | Return | Escape | Slash
    | Home | Delete | End | Left | Up | Right | Down

  /** The letter keys in alphabetical order. */
  const LETTER_KEYS: seq<Key> :=
    [A, B, C, D, E, F, G, H, I, J, K, L, M, N, O, P, Q, R, S, T, U, V, W, X, Y, Z]

  /** The capital letter that names a letter key. */
  function Letter(i: nat): char
    requires i < 26
  {
    (65 + i) as char
  }

  datatype MouseButton = Left | Middle | Right | Other(code: u8)

  datatype InputEvent =
    | KeyDown(key: Key)
    | KeyUp(key: Key)
    | MouseDown(button: MouseButton)
    | MouseUp(button: MouseButton)
    | MouseMove(position: Point2)
    | MouseWheel(delta: Vector2)
}
