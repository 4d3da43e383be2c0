/** Three-component vectors over the reals, rigid frames, and the vector-math
    library that the animation code calls but does not define.

    Floating-point arithmetic is modelled by exact real arithmetic.  The
    operations that need a square root or a 4x4 matrix (length, normalize,
    matrix construction and application) are foreign to the animation code;
    they are gathered in the record VMath and passed to every operation that
    uses them, so the model says nothing about them beyond what a lemma
    assumes explicitly. */
module VecMath {

  datatype Vec3 = Vec3(x: real, y: real, z: real)

  const Zero := Vec3(0.0, 0.0, 0.0)
  const XAxis := Vec3(1.0, 0.0, 0.0)
  const YAxis := Vec3(0.0, 1.0, 0.0)
  const ZAxis := Vec3(0.0, 0.0, 1.0)

  function Add(a: Vec3, b: Vec3): Vec3 {
    Vec3(a.x + b.x, a.y + b.y, a.z + b.z)
  }

  function Sub(a: Vec3, b: Vec3): Vec3 {
    Vec3(a.x - b.x, a.y - b.y, a.z - b.z)
  }

  /** `s * v` and `v * s` of the source: scaling by a scalar. */
  function Scale(s: real, v: Vec3): Vec3 {
    Vec3(s * v.x, s * v.y, s * v.z)
  }

  /** `v / s` of the source. */
  function Div(v: Vec3, s: real): Vec3
    requires s != 0.0
  {
    Vec3(v.x / s, v.y / s, v.z / s)
  }

  function Dot(a: Vec3, b: Vec3): real {
    a.x * b.x + a.y * b.y + a.z * b.z
  }

  /** A rigid frame: three axes and an origin. */
  datatype Frame3 = Frame3(x: Vec3, y: Vec3, z: Vec3, o: Vec3)

  /** A 4x4 affine matrix, row-major.  The model never inspects its entries:
      every matrix is built and applied by a VMath operation. */
  datatype Mat4 = Mat4(rows: seq<seq<real>>)

  /** The vector-math library used by the animation code.
      - length, normalize: Euclidean length and unit vector;
      - translationMatrix, rotationMatrix(angle, axis), mul: matrix construction and product;
      - transformFrame, transformPoint, transformNormal: matrix application;
      - framePoint, framePointInverse: a point from a frame's local coordinates
        to world coordinates and back. */
  datatype VMath = VMath(
    length: Vec3 -> real,
    normalize: Vec3 -> Vec3,
    translationMatrix: Vec3 -> Mat4,
    rotationMatrix: (real, Vec3) -> Mat4,
    mul: (Mat4, Mat4) -> Mat4,
    transformFrame: (Mat4, Frame3) -> Frame3,
    transformPoint: (Mat4, Vec3) -> Vec3,
    transformNormal: (Mat4, Vec3) -> Vec3,
    framePoint: (Frame3, Vec3) -> Vec3,
    framePointInverse: (Frame3, Vec3) -> Vec3)
}
