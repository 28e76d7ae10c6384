/** Reading a camera back out of a model-view matrix (`getLookVector`,
    `getUpVector`, `getWorldPosition` of the utilities).

    glm stores matrices by column: `m[i][j]` is column i, row j (`At`).
    The upper 3×3 block R and the translation column d of a rigid view
    matrix satisfy d = −R·eye, so the camera sits at −Rᵀ·d. */
module ViewUtils {
  import opened Linear

  /** `getLookVector(modelView)`: row 2 of the upper 3×3 block, the
      camera's backward axis in world coordinates. */
  function GetLookVector(m: Mat4): (r: Vec3)
    ensures r == Vec3(At(m, 0, 2), At(m, 1, 2), At(m, 2, 2))
  {
    Vec3(m.c0.z, m.c1.z, m.c2.z)
  }

  /** `getUpVector(modelView)`: row 1 of the upper 3×3 block. */
  function GetUpVector(m: Mat4): (r: Vec3)
    ensures r == Vec3(At(m, 0, 1), At(m, 1, 1), At(m, 2, 1))
  {
    Vec3(m.c0.y, m.c1.y, m.c2.y)
  }

  function Xyz(v: Vec4): Vec3 { Vec3(v.x, v.y, v.z) }

  /** `getWorldPosition(modelView)`: `-d * mat3(modelView)`, a row vector
      times a matrix, so component i is −d·(column i of R). */
  function GetWorldPosition(m: Mat4): (r: Vec3)
    ensures r == Neg(Vec3(Dot(Xyz(m.c3), Xyz(m.c0)), Dot(Xyz(m.c3), Xyz(m.c1)), Dot(Xyz(m.c3), Xyz(m.c2))))
  {
    var d := Neg(Xyz(m.c3));
    Vec3(Dot(d, Xyz(m.c0)), Dot(d, Xyz(m.c1)), Dot(d, Xyz(m.c2)))
  }

  /** A view matrix as `glm::lookAt` lays it out: the camera's side, up
      and backward axes are the rows of R, and the translation moves the
      eye to the origin. */
  function ViewOf(side: Vec3, up: Vec3, back: Vec3, eye: Vec3): (m: Mat4)
    ensures Xyz(m.c3) == Neg(Vec3(Dot(side, eye), Dot(up, eye), Dot(back, eye)))
  {
    Mat4(Vec4(side.x, up.x, back.x, 0.0),
         Vec4(side.y, up.y, back.y, 0.0),
         Vec4(side.z, up.z, back.z, 0.0),
         Vec4(-Dot(side, eye), -Dot(up, eye), -Dot(back, eye), 1.0))
  }

  /** The look and up vectors of such a matrix are the axes it was built
      from, whatever they are. */
  lemma AxesRoundTrip(side: Vec3, up: Vec3, back: Vec3, eye: Vec3)
    ensures GetLookVector(ViewOf(side, up, back, eye)) == back
    ensures GetUpVector(ViewOf(side, up, back, eye)) == up
  {
  }

  /** RᵀR = I for the matrix whose rows are the three axes: its columns
      are orthonormal. */
  predicate Orthonormal(side: Vec3, up: Vec3, back: Vec3)
  {
    var c0 := Vec3(side.x, up.x, back.x);
    var c1 := Vec3(side.y, up.y, back.y);
    var c2 := Vec3(side.z, up.z, back.z);
    && Dot(c0, c0) == 1.0 && Dot(c1, c1) == 1.0 && Dot(c2, c2) == 1.0
    && Dot(c0, c1) == 0.0 && Dot(c0, c2) == 0.0 && Dot(c1, c2) == 0.0
  }

  /** One component of −Rᵀd with d = −R·e, regrouped by the coordinates
      of e. */
  lemma Regroup(a: Vec3, b: Vec3, c: Vec3, e: Vec3, i: Vec3)
    ensures Dot(a, e) * i.x + Dot(b, e) * i.y + Dot(c, e) * i.z
         == e.x * (a.x * i.x + b.x * i.y + c.x * i.z)
          + e.y * (a.y * i.x + b.y * i.y + c.y * i.z)
          + e.z * (a.z * i.x + b.z * i.y + c.z * i.z)
  {
  }

  /** For a rigid view matrix `getWorldPosition` recovers the eye. */
  lemma WorldPositionRoundTrip(side: Vec3, up: Vec3, back: Vec3, eye: Vec3)
    requires Orthonormal(side, up, back)
    ensures GetWorldPosition(ViewOf(side, up, back, eye)) == eye
  {
    var m := ViewOf(side, up, back, eye);
    var c0 := Vec3(side.x, up.x, back.x);
    var c1 := Vec3(side.y, up.y, back.y);
    var c2 := Vec3(side.z, up.z, back.z);
    assert Xyz(m.c0) == c0 && Xyz(m.c1) == c1 && Xyz(m.c2) == c2;
    var d := Neg(Xyz(m.c3));
    assert d == Vec3(Dot(side, eye), Dot(up, eye), Dot(back, eye));
    Regroup(side, up, back, eye, c0);
    Regroup(side, up, back, eye, c1);
    Regroup(side, up, back, eye, c2);
    assert Dot(d, c0) == eye.x;
    assert Dot(d, c1) == eye.y;
    assert Dot(d, c2) == eye.z;
  }

  /** With no rotation the camera sits at the negated translation. */
  lemma WorldPositionWithoutRotation(m: Mat4)
    requires Xyz(m.c0) == Vec3(1.0, 0.0, 0.0) && Xyz(m.c1) == Vec3(0.0, 1.0, 0.0) && Xyz(m.c2) == Vec3(0.0, 0.0, 1.0)
    ensures GetWorldPosition(m) == Neg(Xyz(m.c3))
  {
  }
}
