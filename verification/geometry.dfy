/** Points and vectors of R^3 over exact reals (Eigen::Vector3d in the source). */
module Geometry {

  datatype Vec3 = Vec3(x: real, y: real, z: real)

  function Sub(a: Vec3, b: Vec3): (r: Vec3)
  {
    Vec3(a.x - b.x, a.y - b.y, a.z - b.z)
  }

  function Scale(k: real, a: Vec3): (r: Vec3)
  {
    Vec3(k * a.x, k * a.y, k * a.z)
  }

  function Abs(x: real): (r: real)
  {
    if x < 0.0 then -x else x
  }
}
