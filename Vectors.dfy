/** Real 3-vectors standing in for three.js `Vector3` (floating-point
    rounding is not modelled). */
module Vectors {

  datatype Vec3 = Vec3(x: real, y: real, z: real)

  const Zero: Vec3 := Vec3(0.0, 0.0, 0.0)

  /** `a.add(b)` */
  function Add(a: Vec3, b: Vec3): Vec3 {
    Vec3(a.x + b.x, a.y + b.y, a.z + b.z)
  }

  /** `a.sub(b)` */
  function Sub(a: Vec3, b: Vec3): Vec3 {
    Vec3(a.x - b.x, a.y - b.y, a.z - b.z)
  }

  /** `v.multiplyScalar(k)` */
  function Scale(v: Vec3, k: real): Vec3 {
    Vec3(k * v.x, k * v.y, k * v.z)
  }

  function Abs(r: real): (a: real)
    ensures a >= 0.0 && (a == r || a == -r)
  {
    if r < 0.0 then -r else r
  }

  /** `v.length()` for a vector on the z axis (the only kind normalised
      here; a general length needs a square root). */
  function AxisLength(v: Vec3): (l: real)
    requires v.x == 0.0 && v.y == 0.0
    ensures l >= 0.0 && (l == 0.0 <==> v == Zero)
  {
    Abs(v.z)
  }

  /** `v.normalize()` on a z-axis vector: three.js divides by
      `length() || 1`, so the zero vector stays zero instead of becoming NaN. */
  function Normalize(v: Vec3): (u: Vec3)
    requires v.x == 0.0 && v.y == 0.0
    ensures u.x == 0.0 && u.y == 0.0
    ensures v == Zero ==> u == Zero
    ensures v.z > 0.0 ==> u.z == 1.0
    ensures v.z < 0.0 ==> u.z == -1.0
  {
    var l := AxisLength(v);
    Scale(v, 1.0 / (if l == 0.0 then 1.0 else l))
  }
}
