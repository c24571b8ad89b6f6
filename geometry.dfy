/** Points and 4x4 matrices as the sensor tools use them (Eigen's `Vector3d`
    and `Matrix4d`), with coordinates as mathematical reals. */
module Geometry {

  /** A sensor position (x, y, z). */
  datatype Point3 = Point3(x: real, y: real, z: real)

  /** One row of a 4x4 matrix, columns 0 to 3. */
  datatype Row4 = Row4(c0: real, c1: real, c2: real, c3: real)

  /** A 4x4 matrix as its four rows, row 0 first. */
  type Mat4 = m: seq<Row4> | |m| == 4
    witness [Row4(0.0, 0.0, 0.0, 0.0), Row4(0.0, 0.0, 0.0, 0.0),
             Row4(0.0, 0.0, 0.0, 0.0), Row4(0.0, 0.0, 0.0, 0.0)]

  /** Eigen's `setIdentity()`. */
  const Identity: Mat4 :=
    [Row4(1.0, 0.0, 0.0, 0.0), Row4(0.0, 1.0, 0.0, 0.0),
     Row4(0.0, 0.0, 1.0, 0.0), Row4(0.0, 0.0, 0.0, 1.0)]
}
