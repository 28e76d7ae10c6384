/** Exact real-valued vectors and the small amount of linear algebra the game
    uses from glm: sums, differences, scaling, dot and cross products, and a
    column-major 4x4 matrix.  Floating-point rounding is not modelled. */
module Linear {

  datatype Vec2 = Vec2(x: real, y: real)

  datatype Vec3 = Vec3(x: real, y: real, z: real)

  datatype Vec4 = Vec4(x: real, y: real, z: real, w: real)

  /** glm::mat4 is column major: `m[i][j]` is column i, row j. */
  datatype Mat4 = Mat4(c0: Vec4, c1: Vec4, c2: Vec4, c3: Vec4)

  const Zero3: Vec3 := Vec3(0.0, 0.0, 0.0)

  function Add(a: Vec3, b: Vec3): Vec3 { Vec3(a.x + b.x, a.y + b.y, a.z + b.z) }

  function Sub(a: Vec3, b: Vec3): Vec3 { Vec3(a.x - b.x, a.y - b.y, a.z - b.z) }

  function Neg(a: Vec3): Vec3 { Vec3(-a.x, -a.y, -a.z) }

  function Scale(a: Vec3, k: real): Vec3 { Vec3(a.x * k, a.y * k, a.z * k) }

  function Dot(a: Vec3, b: Vec3): real { a.x * b.x + a.y * b.y + a.z * b.z }

  function Cross(a: Vec3, b: Vec3): Vec3
  {
    Vec3(a.y * b.z - a.z * b.y, a.z * b.x - a.x * b.z, a.x * b.y - a.y * b.x)
  }

  function Add2(a: Vec2, b: Vec2): Vec2 { Vec2(a.x + b.x, a.y + b.y) }

  function Sub2(a: Vec2, b: Vec2): Vec2 { Vec2(a.x - b.x, a.y - b.y) }

  function Scale2(a: Vec2, k: real): Vec2 { Vec2(a.x * k, a.y * k) }

  function Dot2(a: Vec2, b: Vec2): real { a.x * b.x + a.y * b.y }

  /** Squared Euclidean length; comparisons against a length are made on squares. */
  function LengthSq2(a: Vec2): real { Dot2(a, a) }

  /** Column i of a matrix, `m[i]` in glm. */
  function Column(m: Mat4, i: nat): Vec4
    requires i < 4
  {
    if i == 0 then m.c0 else if i == 1 then m.c1 else if i == 2 then m.c2 else m.c3
  }

  function Component(v: Vec4, j: nat): real
    requires j < 4
  {
    if j == 0 then v.x else if j == 1 then v.y else if j == 2 then v.z else v.w
  }

  /** `m[i][j]` in glm: column i, row j. */
  function At(m: Mat4, i: nat, j: nat): real
    requires i < 4 && j < 4
  {
    Component(Column(m, i), j)
  }

  /** The product `m * v` of glm, as a linear combination of the columns. */
  function MulVec(m: Mat4, v: Vec4): Vec4
  {
    Vec4(m.c0.x * v.x + m.c1.x * v.y + m.c2.x * v.z + m.c3.x * v.w,
         m.c0.y * v.x + m.c1.y * v.y + m.c2.y * v.z + m.c3.y * v.w,
         m.c0.z * v.x + m.c1.z * v.y + m.c2.z * v.z + m.c3.z * v.w,
         m.c0.w * v.x + m.c1.w * v.y + m.c2.w * v.z + m.c3.w * v.w)
  }

  lemma DotScaleLeft(a: Vec3, k: real, b: Vec3)
    ensures Dot(Scale(a, k), b) == k * Dot(a, b)
  {
  }

  lemma DotSub(n: Vec3, p: Vec3, q: Vec3)
    ensures Dot(n, p) - Dot(n, q) == Dot(n, Sub(p, q))
  {
  }

  /** A scalar triple product with a repeated factor vanishes. */
  lemma CrossOrthogonal(a: Vec3, b: Vec3)
    ensures Dot(Cross(a, b), a) == 0.0
    ensures Dot(Cross(a, b), b) == 0.0
  {
  }
}
