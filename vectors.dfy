/**
 * Three- and two-component vectors and the exact vector arithmetic the
 * generator uses (`V3.add`, `V3.sub`, `V3.scale`, `V3.cross`, `V3.dot` of the
 * `vec/v3` library). Operations that need a square root or a trigonometric
 * function are not here: they are supplied by `Config.Numerics`.
 */
module Vectors {
  datatype Vec3 = Vec3(x: real, y: real, z: real)
  datatype Vec2 = Vec2(x: real, y: real)

  const Zero3: Vec3 := Vec3(0.0, 0.0, 0.0)
  const Zero2: Vec2 := Vec2(0.0, 0.0)

  function Add(a: Vec3, b: Vec3): Vec3 {
    Vec3(a.x + b.x, a.y + b.y, a.z + b.z)
  }

  function Sub(a: Vec3, b: Vec3): Vec3 {
    Vec3(a.x - b.x, a.y - b.y, a.z - b.z)
  }

  function Scale(a: Vec3, s: real): Vec3 {
    Vec3(a.x * s, a.y * s, a.z * s)
  }

  function Neg(a: Vec3): Vec3 {
    Vec3(-a.x, -a.y, -a.z)
  }

  function Dot(a: Vec3, b: Vec3): real {
    a.x * b.x + a.y * b.y + a.z * b.z
  }

  function Cross(a: Vec3, b: Vec3): Vec3 {
    Vec3(a.y * b.z - a.z * b.y, a.z * b.x - a.x * b.z, a.x * b.y - a.y * b.x)
  }

  /** `scaleInDirection`: rescales the component of `v` along `d` by `s`. */
  function ScaleInDirection(v: Vec3, d: Vec3, s: real): Vec3 {
    var m := Dot(v, d);
    Add(v, Scale(d, m * s - m))
  }

  /** Swapping the operands of a cross product negates it. */
  lemma CrossAntiCommutes(a: Vec3, b: Vec3)
    ensures Cross(b, a) == Neg(Cross(a, b))
  {
  }

  function Abs(r: real): real {
    if r < 0.0 then -r else r
  }
}
