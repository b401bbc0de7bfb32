/** The slice of the rendering library's value types that the core computes
    with: 3-vectors, quaternions and RGB colours, all over exact reals. */
module Vectors {

  datatype Vec3 = Vec3(x: real, y: real, z: real)

  datatype Quat = Quat(x: real, y: real, z: real, w: real)

  datatype Color = Color(r: real, g: real, b: real)

  const Zero: Vec3 := Vec3(0.0, 0.0, 0.0)
  const One: Vec3 := Vec3(1.0, 1.0, 1.0)
  const IdentityRotation: Quat := Quat(0.0, 0.0, 0.0, 1.0)
  const White: Color := Color(1.0, 1.0, 1.0)

  function Add(a: Vec3, b: Vec3): Vec3 {
    Vec3(a.x + b.x, a.y + b.y, a.z + b.z)
  }

  /** Component-wise product, as `Vector3.multiply`. */
  function Mul(a: Vec3, b: Vec3): Vec3 {
    Vec3(a.x * b.x, a.y * b.y, a.z * b.z)
  }

  function Scale(a: Vec3, s: real): Vec3 {
    Vec3(a.x * s, a.y * s, a.z * s)
  }

  function AddColor(a: Color, b: Color): Color {
    Color(a.r + b.r, a.g + b.g, a.b + b.b)
  }

  function MulColor(a: Color, b: Color): Color {
    Color(a.r * b.r, a.g * b.g, a.b * b.b)
  }

  /** A modifier value read as a colour: x, y, z are the red, green and blue channels. */
  function AsColor(v: Vec3): Color {
    Color(v.x, v.y, v.z)
  }
}
