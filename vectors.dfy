/** Three-component positions, the payload of a `Translation`, over the reals. */
module Vectors {

  datatype Vec3 = Vec3(x: real, y: real, z: real)

  function Add(a: Vec3, b: Vec3): Vec3 {
    Vec3(a.x + b.x, a.y + b.y, a.z + b.z)
  }

  function Sub(a: Vec3, b: Vec3): Vec3 {
    Vec3(a.x - b.x, a.y - b.y, a.z - b.z)
  }

  function Mul(a: Vec3, k: real): Vec3 {
    Vec3(a.x * k, a.y * k, a.z * k)
  }

  /** `start + (end - start) * t`: the eased interpolation written into a
      `Translation`. It is anchored at both ends. */
  function Lerp(start: Vec3, end: Vec3, t: real): (v: Vec3)
    ensures t == 0.0 ==> v == start
    ensures t == 1.0 ==> v == end
    ensures start == end ==> v == start
  {
    Add(start, Mul(Sub(end, start), t))
  }

  /** The same interpolation on a scalar `Scale`. */
  function LerpScalar(start: real, end: real, t: real): (v: real)
    ensures t == 0.0 ==> v == start
    ensures t == 1.0 ==> v == end
  {
    start + (end - start) * t
  }
}
