/** Two-component real vectors, standing for the engine's Vector2 (velocities, positions, directions). */
module Vectors {

  datatype Vec2 = Vec2(x: real, y: real) {

    /** Both components multiplied by k. */
    function Scale(k: real): Vec2 {
      Vec2(x * k, y * k)
    }

    /** Square of the Euclidean length. */
    function LengthSq(): real {
      x * x + y * y
    }
  }

  const ZERO: Vec2 := Vec2(0.0, 0.0)

  /** Square of the distance between a and b; comparing it with r * r avoids a square root. */
  function DistanceSq(a: Vec2, b: Vec2): (d: real)
    ensures d >= 0.0
    ensures a == b ==> d == 0.0
  {
    (b.x - a.x) * (b.x - a.x) + (b.y - a.y) * (b.y - a.y)
  }

}
