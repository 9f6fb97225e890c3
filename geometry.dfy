/**
 * Unity's Vector2 and Vector3, over the reals. Lengths are compared through their
 * squares, so no square root is ever taken: `Vector2.Distance(a, b) < r` with
 * `r >= 0` is `Dist2Sq(a, b) < r * r`.
 */
module Geometry {

  datatype Vec2 = Vec2(x: real, y: real)

  datatype Vec3 = Vec3(x: real, y: real, z: real)

  const Zero3: Vec3 := Vec3(0.0, 0.0, 0.0)

  function Scale2(k: real, v: Vec2): Vec2 {
    Vec2(k * v.x, k * v.y)
  }

  function Norm2Sq(v: Vec2): real {
    v.x * v.x + v.y * v.y
  }

  function Dist2Sq(a: Vec2, b: Vec2): real {
    Norm2Sq(Vec2(a.x - b.x, a.y - b.y))
  }

  function Add3(a: Vec3, b: Vec3): Vec3 {
    Vec3(a.x + b.x, a.y + b.y, a.z + b.z)
  }

  function Sub3(a: Vec3, b: Vec3): Vec3 {
    Vec3(a.x - b.x, a.y - b.y, a.z - b.z)
  }

  function Scale3(k: real, v: Vec3): Vec3 {
    Vec3(k * v.x, k * v.y, k * v.z)
  }

  function Norm3Sq(v: Vec3): real {
    v.x * v.x + v.y * v.y + v.z * v.z
  }

  function Dist3Sq(a: Vec3, b: Vec3): real {
    Norm3Sq(Sub3(a, b))
  }

  /** Scaling a vector scales its squared length by the square of the factor. */
  lemma Scale2NormSq(k: real, v: Vec2)
    ensures Norm2Sq(Scale2(k, v)) == k * k * Norm2Sq(v)
  {
  }

  lemma Scale3NormSq(k: real, v: Vec3)
    ensures Norm3Sq(Scale3(k, v)) == k * k * Norm3Sq(v)
  {
  }
}
