/** Vectors over the reals and the few engine facts the model relies on.
    Engine primitives whose exact value is not modelled (vector magnitude,
    Vector3.Angle, TransformDirection, ScreenToWorldPoint, normalisation)
    appear elsewhere as function-typed parameters; their only known facts are
    carried by the result types below. */
module Geometry {

  datatype Option<T> = None | Some(value: T)

  /** A Vector3, with float components modelled as mathematical reals. */
  datatype Vec3 = Vec3(x: real, y: real, z: real)

  /** A length as the engine returns it: never negative. */
  type NonNegReal = r: real | r >= 0.0

  /** An unsigned angle as Vector3.Angle returns it: between 0 and 180 degrees. */
  type Degrees = r: real | 0.0 <= r <= 180.0

  const Zero: Vec3 := Vec3(0.0, 0.0, 0.0)
  /** Vector3.up */
  const Up: Vec3 := Vec3(0.0, 1.0, 0.0)
  /** Vector3.forward */
  const Forward: Vec3 := Vec3(0.0, 0.0, 1.0)

  function Add(a: Vec3, b: Vec3): Vec3 {
    Vec3(a.x + b.x, a.y + b.y, a.z + b.z)
  }

  function Sub(a: Vec3, b: Vec3): Vec3 {
    Vec3(a.x - b.x, a.y - b.y, a.z - b.z)
  }

  function Scale(k: real, a: Vec3): Vec3 {
    Vec3(k * a.x, k * a.y, k * a.z)
  }

  function Dot(a: Vec3, b: Vec3): real {
    a.x * b.x + a.y * b.y + a.z * b.z
  }

  /** Vector3.Cross */
  function Cross(a: Vec3, b: Vec3): Vec3 {
    Vec3(a.y * b.z - a.z * b.y, a.z * b.x - a.x * b.z, a.x * b.y - a.y * b.x)
  }

  /** Mathf.Abs */
  function Abs(r: real): real {
    if r < 0.0 then -r else r
  }
}
