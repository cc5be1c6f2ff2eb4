/**
 * The small value types the matrix algebra and the nodes share: 2- and
 * 3-component vectors (RepoVector2D, RepoVector3D and RepoVector3D64) and
 * axis-aligned bounding boxes (RepoBounds). Components are mathematical
 * reals, so the 32- and 64-bit variants are one type here.
 */
module Vectors {

  datatype Vec2 = Vec2(x: real, y: real)

  datatype Vec3 = Vec3(x: real, y: real, z: real)

  /** An axis-aligned bounding box given by its two corners. */
  datatype Bounds = Bounds(min: Vec3, max: Vec3)

  function Add(a: Vec3, b: Vec3): Vec3 {
    Vec3(a.x + b.x, a.y + b.y, a.z + b.z)
  }

  function Abs(x: real): real {
    if x < 0.0 then -x else x
  }
}
