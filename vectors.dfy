/** Three-component vectors and RGB colours, as exact reals.
    The source uses three.js `Vector3` and `Color`; only the arithmetic the
    particle core performs on them is modelled here. */
module Vectors {

  datatype Vec3 = Vec3(x: real, y: real, z: real)

  /** `a.add(b)` */
  function Add(a: Vec3, b: Vec3): Vec3 {
    Vec3(a.x + b.x, a.y + b.y, a.z + b.z)
  }

  /** `a.multiplyScalar(k)` */
  function Scale(a: Vec3, k: real): Vec3 {
    Vec3(a.x * k, a.y * k, a.z * k)
  }

  datatype Color = Rgb(r: real, g: real, b: real)

  /** Every channel multiplied by `k`, as the buffer writer does with alpha. */
  function Fade(c: Color, k: real): Color {
    Rgb(c.r * k, c.g * k, c.b * k)
  }

  /** Every channel lies in [0, 1], the range of the palette colours. */
  predicate InUnitCube(c: Color) {
    0.0 <= c.r <= 1.0 && 0.0 <= c.g <= 1.0 && 0.0 <= c.b <= 1.0
  }
}
