/** The `euclid` points and vectors the program uses, with `f32` coordinates
    modelled as reals. */
module Geometry {
  datatype Point2 = Point2(x: real, y: real)

  datatype Vector2 = Vector2(x: real, y: real)

  /** `point + vector` */
  function Translate(p: Point2, v: Vector2): Point2 {
    Point2(p.x + v.x, p.y + v.y)
  }

  function Scale(v: Vector2, k: real): Vector2 {
    Vector2(v.x * k, v.y * k)
  }

  /** The squared Euclidean length. */
  function SquaredLength(v: Vector2): real {
    v.x * v.x + v.y * v.y
  }
}
