/** Vector, quaternion and transform values. Their components are only ever copied by the
    hand-tracking update, never computed, so they are modelled as exact `real`s. */
module Geometry {

  datatype Vec3 = Vec3(x: real, y: real, z: real)

  /** A rotation quaternion stored as its four raw components; nothing here normalises it. */
  datatype Quat = Quat(x: real, y: real, z: real, w: real)

  datatype Transform = Transform(translation: Vec3, rotation: Quat, scale: Vec3)

  const Zero: Vec3 := Vec3(0.0, 0.0, 0.0)

  const IdentityRotation: Quat := Quat(0.0, 0.0, 0.0, 1.0)
}
