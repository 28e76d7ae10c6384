/** The winding of the six frustum planes: for a camera whose backward axis
    `Z` and up axis `Y` are unit and orthogonal, every point on the viewing
    axis strictly between the near and far clip distances is on the positive
    side of all six planes built by `setCamDef`.

    The proof moves to the camera basis `(X, Y, Z)`: corners and the query
    point get local coordinates, and cross and dot products of local
    coordinates agree with those of the world vectors because the basis is
    orthonormal and right-handed (`X = Y x Z`). */
module FrustumWinding {
  import opened Linear
  import opened Frustum

  /** `Y` and `Z` unit and orthogonal; `X` is derived as in `setCamDef`. */
  predicate Orthonormal(Y: Vec3, Z: Vec3)
  {
    Dot(Y, Y) == 1.0 && Dot(Z, Z) == 1.0 && Dot(Y, Z) == 0.0
  }

  /** The world vector with local coordinates `c`. */
  function Comb(X: Vec3, Y: Vec3, Z: Vec3, c: Vec3): Vec3
  {
    Add(Add(Scale(X, c.x), Scale(Y, c.y)), Scale(Z, c.z))
  }

  /** The scalar triple product `(a x b) . c`, the determinant with rows `a`, `b`, `c`. */
  function Triple(a: Vec3, b: Vec3, c: Vec3): real
  {
    Dot(Cross(a, b), c)
  }

  /** The same determinant on nine scalars. */
  function Det(a1: real, a2: real, a3: real, b1: real, b2: real, b3: real, c1: real, c2: real, c3: real): real
  {
    (a2 * b3 - a3 * b2) * c1 + (a3 * b1 - a1 * b3) * c2 + (a1 * b2 - a2 * b1) * c3
  }

  /** Multiplicativity of the determinant, with the rows of the product
      written out: `det(M u, M v, M w) == det M * det(u, v, w)` for the
      matrix `M` with columns `x`, `y`, `z`. */
  lemma DetProduct(x1: real, x2: real, x3: real, y1: real, y2: real, y3: real, z1: real, z2: real, z3: real,
                   u1: real, u2: real, u3: real, v1: real, v2: real, v3: real, w1: real, w2: real, w3: real)
    ensures Det(x1 * u1 + y1 * u2 + z1 * u3, x2 * u1 + y2 * u2 + z2 * u3, x3 * u1 + y3 * u2 + z3 * u3,
                x1 * v1 + y1 * v2 + z1 * v3, x2 * v1 + y2 * v2 + z2 * v3, x3 * v1 + y3 * v2 + z3 * v3,
                x1 * w1 + y1 * w2 + z1 * w3, x2 * w1 + y2 * w2 + z2 * w3, x3 * w1 + y3 * w2 + z3 * w3)
         == Det(x1, x2, x3, y1, y2, y3, z1, z2, z3) * Det(u1, u2, u3, v1, v2, v3, w1, w2, w3)
  {
  }

  lemma DetCongruent(a1: real, a2: real, a3: real, b1: real, b2: real, b3: real, c1: real, c2: real, c3: real,
                     e1: real, e2: real, e3: real, f1: real, f2: real, f3: real, g1: real, g2: real, g3: real)
    requires a1 == e1 && a2 == e2 && a3 == e3
    requires b1 == f1 && b2 == f2 && b3 == f3
    requires c1 == g1 && c2 == g2 && c3 == g3
    ensures Det(a1, a2, a3, b1, b2, b3, c1, c2, c3) == Det(e1, e2, e3, f1, f2, f3, g1, g2, g3)
  {
  }

  lemma CombCoords(X: Vec3, Y: Vec3, Z: Vec3, c: Vec3)
    ensures Comb(X, Y, Z, c) == Vec3(X.x * c.x + Y.x * c.y + Z.x * c.z,
                                     X.y * c.x + Y.y * c.y + Z.y * c.z,
                                     X.z * c.x + Y.z * c.y + Z.z * c.z)
  {
  }

  lemma TripleCoords(a: Vec3, b: Vec3, c: Vec3)
    ensures Triple(a, b, c) == Det(a.x, a.y, a.z, b.x, b.y, b.z, c.x, c.y, c.z)
  {
  }

  /** The rows of `Triple(Comb u, Comb v, Comb w)` in coordinates. */
  lemma CombRows(X: Vec3, Y: Vec3, Z: Vec3, u: Vec3, v: Vec3, w: Vec3)
    ensures var a := Comb(X, Y, Z, u);
            var b := Comb(X, Y, Z, v);
            var c := Comb(X, Y, Z, w);
            Det(a.x, a.y, a.z, b.x, b.y, b.z, c.x, c.y, c.z)
            == Det(X.x * u.x + Y.x * u.y + Z.x * u.z, X.y * u.x + Y.y * u.y + Z.y * u.z, X.z * u.x + Y.z * u.y + Z.z * u.z,
                   X.x * v.x + Y.x * v.y + Z.x * v.z, X.y * v.x + Y.y * v.y + Z.y * v.z, X.z * v.x + Y.z * v.y + Z.z * v.z,
                   X.x * w.x + Y.x * w.y + Z.x * w.z, X.y * w.x + Y.y * w.y + Z.y * w.z, X.z * w.x + Y.z * w.y + Z.z * w.z)
  {
    var a := Comb(X, Y, Z, u);
    var b := Comb(X, Y, Z, v);
    var c := Comb(X, Y, Z, w);
    CombCoords(X, Y, Z, u);
    CombCoords(X, Y, Z, v);
    CombCoords(X, Y, Z, w);
    DetCongruent(a.x, a.y, a.z, b.x, b.y, b.z, c.x, c.y, c.z,
                 X.x * u.x + Y.x * u.y + Z.x * u.z, X.y * u.x + Y.y * u.y + Z.y * u.z, X.z * u.x + Y.z * u.y + Z.z * u.z,
                 X.x * v.x + Y.x * v.y + Z.x * v.z, X.y * v.x + Y.y * v.y + Z.y * v.z, X.z * v.x + Y.z * v.y + Z.z * v.z,
                 X.x * w.x + Y.x * w.y + Z.x * w.z, X.y * w.x + Y.y * w.y + Z.y * w.z, X.z * w.x + Y.z * w.y + Z.z * w.z);
  }

  /** A change of basis multiplies every triple product by the triple product
      of the basis. */
  lemma {:induction false} TripleInBasis(X: Vec3, Y: Vec3, Z: Vec3, u: Vec3, v: Vec3, w: Vec3)
    ensures Triple(Comb(X, Y, Z, u), Comb(X, Y, Z, v), Comb(X, Y, Z, w)) == Triple(X, Y, Z) * Triple(u, v, w)
  {
    CombRows(X, Y, Z, u, v, w);
    DetProduct(X.x, X.y, X.z, Y.x, Y.y, Y.z, Z.x, Z.y, Z.z, u.x, u.y, u.z, v.x, v.y, v.z, w.x, w.y, w.z);
    TripleCoords(Comb(X, Y, Z, u), Comb(X, Y, Z, v), Comb(X, Y, Z, w));
    TripleCoords(X, Y, Z);
    TripleCoords(u, v, w);
  }

  function SumSq(a1: real, a2: real, a3: real): real
  {
    a1 * a1 + a2 * a2 + a3 * a3
  }

  lemma LagrangeCoords(y1: real, y2: real, y3: real, z1: real, z2: real, z3: real)
    ensures SumSq(y2 * z3 - y3 * z2, y3 * z1 - y1 * z3, y1 * z2 - y2 * z1)
         == SumSq(y1, y2, y3) * SumSq(z1, z2, z3) - (y1 * z1 + y2 * z2 + y3 * z3) * (y1 * z1 + y2 * z2 + y3 * z3)
  {
  }

  lemma SumSqCongruent(a1: real, a2: real, a3: real, e1: real, e2: real, e3: real)
    requires a1 == e1 && a2 == e2 && a3 == e3
    ensures SumSq(a1, a2, a3) == SumSq(e1, e2, e3)
  {
  }

  /** Lagrange's identity `|a x b|^2 == |a|^2 |b|^2 - (a.b)^2`. */
  lemma {:induction false} Lagrange(a: Vec3, b: Vec3)
    ensures Dot(Cross(a, b), Cross(a, b)) == Dot(a, a) * Dot(b, b) - Dot(a, b) * Dot(a, b)
  {
    var n := Cross(a, b);
    LagrangeCoords(a.x, a.y, a.z, b.x, b.y, b.z);
    SumSqCongruent(n.x, n.y, n.z, a.y * b.z - a.z * b.y, a.z * b.x - a.x * b.z, a.x * b.y - a.y * b.x);
    assert Dot(n, n) == SumSq(n.x, n.y, n.z);
    assert Dot(a, a) == SumSq(a.x, a.y, a.z);
    assert Dot(b, b) == SumSq(b.x, b.y, b.z);
  }

  lemma TripleRotate(a: Vec3, b: Vec3, c: Vec3)
    ensures Triple(a, b, c) == Dot(a, Cross(b, c))
  {
  }

  /** The camera basis `(Y x Z, Y, Z)` has triple product one. */
  lemma {:induction false} BasisVolume(Y: Vec3, Z: Vec3)
    requires Orthonormal(Y, Z)
    ensures Triple(Cross(Y, Z), Y, Z) == 1.0
  {
    Lagrange(Y, Z);
    TripleRotate(Cross(Y, Z), Y, Z);
  }

  /** Differences of points given relative to the same origin. */
  lemma SubInBasis(X: Vec3, Y: Vec3, Z: Vec3, o: Vec3, c1: Vec3, c2: Vec3)
    ensures Sub(Add(o, Comb(X, Y, Z, c1)), Add(o, Comb(X, Y, Z, c2))) == Comb(X, Y, Z, Sub(c1, c2))
  {
  }

  lemma OriginInBasis(X: Vec3, Y: Vec3, Z: Vec3, o: Vec3, c: Vec3)
    ensures Sub(o, Add(o, Comb(X, Y, Z, c))) == Comb(X, Y, Z, Neg(c))
  {
  }

  /** The triple product that decides on which side of the plane through
      `a`, `b`, `c` (in `setPoints` order) the local origin lies. */
  function Winding(a: Vec3, b: Vec3, c: Vec3): real
  {
    Triple(Sub(b, a), Sub(c, a), Neg(a))
  }

  /** The signed distance from a plane through three points given in local
      coordinates around `o` has at `o` the sign of the local winding. */
  lemma {:induction false} PlaneSignInBasis(Y: Vec3, Z: Vec3, o: Vec3, la: Vec3, lb: Vec3, lc: Vec3,
                                            a: Vec3, b: Vec3, c: Vec3, unused: Vec3, inv: Vec3 -> real)
    requires Orthonormal(Y, Z)
    requires PositiveScaling(inv)
    requires Winding(la, lb, lc) > 0.0
    requires a == Add(o, Comb(Cross(Y, Z), Y, Z, la))
    requires b == Add(o, Comb(Cross(Y, Z), Y, Z, lb))
    requires c == Add(o, Comb(Cross(Y, Z), Y, Z, lc))
    ensures Distance(SetPoints(a, b, c, unused, inv), o) > 0.0
  {
    var X := Cross(Y, Z);
    SubInBasis(X, Y, Z, o, lb, la);
    SubInBasis(X, Y, Z, o, lc, la);
    OriginInBasis(X, Y, Z, o, la);
    TripleInBasis(X, Y, Z, Sub(lb, la), Sub(lc, la), Neg(la));
    BasisVolume(Y, Z);
    var n := Cross(Sub(b, a), Sub(c, a));
    assert Dot(n, Sub(o, a)) == Winding(la, lb, lc);
    SetPointsDistance(a, b, c, unused, inv, o);
    MulPos(inv(n), Dot(n, Sub(o, a)));
  }

  lemma MulPos(a: real, b: real)
    requires a > 0.0 && b > 0.0
    ensures a * b > 0.0
  {
  }

  /** The corner `p - Z*d + Y*h + X*w` in local coordinates around the axis
      point `p - Z*m`. */
  lemma CornerInBasis(p: Vec3, X: Vec3, Y: Vec3, Z: Vec3, m: real, d: real, h: real, w: real)
    ensures Add(Add(Sub(p, Scale(Z, d)), Scale(Y, h)), Scale(X, w))
         == Add(Sub(p, Scale(Z, m)), Comb(X, Y, Z, Vec3(w, h, m - d)))
  {
  }

  lemma SubAsAdd(v: Vec3, X: Vec3, w: real)
    ensures Sub(v, Scale(X, w)) == Add(v, Scale(X, -w))
  {
  }

  /** The four corners of a clip rectangle at distance `d`. */
  lemma {:induction false} RectInBasis(p: Vec3, X: Vec3, Y: Vec3, Z: Vec3, m: real, d: real, h: real, w: real)
    ensures var ce := Sub(p, Scale(Z, d));
            var o := Sub(p, Scale(Z, m));
            && Sub(Add(ce, Scale(Y, h)), Scale(X, w)) == Add(o, Comb(X, Y, Z, Vec3(-w, h, m - d)))
            && Add(Add(ce, Scale(Y, h)), Scale(X, w)) == Add(o, Comb(X, Y, Z, Vec3(w, h, m - d)))
            && Sub(Sub(ce, Scale(Y, h)), Scale(X, w)) == Add(o, Comb(X, Y, Z, Vec3(-w, -h, m - d)))
            && Add(Sub(ce, Scale(Y, h)), Scale(X, w)) == Add(o, Comb(X, Y, Z, Vec3(w, -h, m - d)))
  {
    var ce := Sub(p, Scale(Z, d));
    CornerInBasis(p, X, Y, Z, m, d, h, w);
    CornerInBasis(p, X, Y, Z, m, d, h, -w);
    CornerInBasis(p, X, Y, Z, m, d, -h, w);
    CornerInBasis(p, X, Y, Z, m, d, -h, -w);
    SubAsAdd(ce, Y, h);
    SubAsAdd(Add(ce, Scale(Y, h)), X, w);
    SubAsAdd(Sub(ce, Scale(Y, h)), X, w);
  }

  /** The eight corners in camera coordinates around a point of the viewing
      axis: right `w`, up `h`, and the height `zn` (near) or `zf` (far) of
      the clip plane above that point along `Z`. */
  function LocalCorners(nw: real, nh: real, fw: real, fh: real, zn: real, zf: real): Corners
  {
    Corners(Vec3(-nw, nh, zn), Vec3(nw, nh, zn), Vec3(-nw, -nh, zn), Vec3(nw, -nh, zn),
            Vec3(-fw, fh, zf), Vec3(fw, fh, zf), Vec3(-fw, -fh, zf), Vec3(fw, -fh, zf))
  }

  /** The corners of `CornersOf` are the local corners in the camera basis
      around the axis point at depth `m`. */
  lemma {:induction false} CornersInBasis(p: Vec3, Y: Vec3, Z: Vec3, c: Internals, m: real)
    ensures var X := Cross(Y, Z);
            var k := CornersOf(p, X, Y, Z, c);
            var o := Sub(p, Scale(Z, m));
            var lk := LocalCorners(c.nw, c.nh, c.fw, c.fh, m - c.nearD, m - c.farD);
            && k.ntl == Add(o, Comb(X, Y, Z, lk.ntl)) && k.ntr == Add(o, Comb(X, Y, Z, lk.ntr))
            && k.nbl == Add(o, Comb(X, Y, Z, lk.nbl)) && k.nbr == Add(o, Comb(X, Y, Z, lk.nbr))
            && k.ftl == Add(o, Comb(X, Y, Z, lk.ftl)) && k.ftr == Add(o, Comb(X, Y, Z, lk.ftr))
            && k.fbl == Add(o, Comb(X, Y, Z, lk.fbl)) && k.fbr == Add(o, Comb(X, Y, Z, lk.fbr))
  {
    var X := Cross(Y, Z);
    RectInBasis(p, X, Y, Z, m, c.nearD, c.nh, c.nw);
    RectInBasis(p, X, Y, Z, m, c.farD, c.fh, c.fw);
  }

  lemma SideWindings(nw: real, nh: real, fw: real, fh: real, zn: real, zf: real)
    ensures var k := LocalCorners(nw, nh, fw, fh, zn, zf);
            && Winding(k.ntr, k.ntl, k.ftl) == 2.0 * nw * (nh * (zn - zf) + (fh - nh) * zn)
            && Winding(k.nbl, k.nbr, k.fbr) == 2.0 * nw * (nh * (zn - zf) + (fh - nh) * zn)
            && Winding(k.ntl, k.nbl, k.fbl) == 2.0 * nh * (nw * (zn - zf) + (fw - nw) * zn)
            && Winding(k.nbr, k.ntr, k.ftr) == 2.0 * nh * (nw * (zn - zf) + (fw - nw) * zn)
  {
  }

  lemma CapWindings(nw: real, nh: real, fw: real, fh: real, zn: real, zf: real)
    ensures var k := LocalCorners(nw, nh, fw, fh, zn, zf);
            && Winding(k.ntl, k.ntr, k.nbr) == 4.0 * nw * nh * zn
            && Winding(k.ftr, k.ftl, k.fbl) == 4.0 * fw * fh * -zf
  {
  }

  /** In camera coordinates every plane, taken with the corner order of
      `setCamDef`, has a point of the axis strictly between the clip planes
      (near plane above it, far plane below) on its positive side, as long as
      the far rectangle is larger than the near one. */
  lemma {:induction false} LocalWindings(nw: real, nh: real, fw: real, fh: real, zn: real, zf: real)
    requires 0.0 < nw < fw && 0.0 < nh < fh
    requires zf < 0.0 < zn
    ensures var k := LocalCorners(nw, nh, fw, fh, zn, zf);
            && Winding(k.ntr, k.ntl, k.ftl) > 0.0
            && Winding(k.nbl, k.nbr, k.fbr) > 0.0
            && Winding(k.ntl, k.nbl, k.fbl) > 0.0
            && Winding(k.nbr, k.ntr, k.ftr) > 0.0
            && Winding(k.ntl, k.ntr, k.nbr) > 0.0
            && Winding(k.ftr, k.ftl, k.fbl) > 0.0
  {
    SideWindings(nw, nh, fw, fh, zn, zf);
    CapWindings(nw, nh, fw, fh, zn, zf);
    MulPos(nh, zn - zf);
    MulPos(fh - nh, zn);
    MulPos(nw, zn - zf);
    MulPos(fw - nw, zn);
    MulPos(2.0 * nw, nh * (zn - zf) + (fh - nh) * zn);
    MulPos(2.0 * nh, nw * (zn - zf) + (fw - nw) * zn);
    MulPos(4.0 * nw, nh);
    MulPos(4.0 * nw * nh, zn);
    MulPos(4.0 * fw, fh);
    MulPos(4.0 * fw * fh, -zf);
  }

  /** Conditions on the camera under which the frustum is a proper pyramid
      frustum in front of the camera. */
  predicate ProperCamera(c: Internals)
  {
    && 0.0 < c.nearD < c.farD && c.tang > 0.0 && c.ratio > 0.0
    && c == SetCamInternals(c.angle, c.ratio, c.nearD, c.farD, c.tang)
  }

  /** A proper camera has a far rectangle strictly larger than its near one. */
  lemma {:induction false} ProperCameraSizes(c: Internals)
    requires ProperCamera(c)
    ensures 0.0 < c.nw < c.fw && 0.0 < c.nh < c.fh
  {
    MulPos(c.nearD, c.tang);
    MulPos(c.farD - c.nearD, c.tang);
    assert c.fh - c.nh == (c.farD - c.nearD) * c.tang;
    MulPos(c.nh, c.ratio);
    MulPos(c.fh - c.nh, c.ratio);
    assert c.fw - c.nw == (c.fh - c.nh) * c.ratio;
  }

  /** The six `setPoints` planes of a proper camera's corners all have the
      axis point at depth `m` on their positive side. */
  lemma {:induction false} CornerPlanesInside(p: Vec3, Y: Vec3, Z: Vec3, c: Internals, inv: Vec3 -> real, m: real)
    requires PositiveScaling(inv)
    requires Orthonormal(Y, Z)
    requires ProperCamera(c)
    requires c.nearD < m < c.farD
    ensures var k := CornersOf(p, Cross(Y, Z), Y, Z, c);
            var q := Sub(p, Scale(Z, m));
            && Distance(SetPoints(k.ntr, k.ntl, k.ftl, k.ftr, inv), q) > 0.0
            && Distance(SetPoints(k.nbl, k.nbr, k.fbr, k.fbl, inv), q) > 0.0
            && Distance(SetPoints(k.ntl, k.nbl, k.fbl, k.ftl, inv), q) > 0.0
            && Distance(SetPoints(k.nbr, k.ntr, k.ftr, k.fbr, inv), q) > 0.0
            && Distance(SetPoints(k.ntl, k.ntr, k.nbr, k.nbl, inv), q) > 0.0
            && Distance(SetPoints(k.ftr, k.ftl, k.fbl, k.fbr, inv), q) > 0.0
  {
    var X := Cross(Y, Z);
    var k := CornersOf(p, X, Y, Z, c);
    var o := Sub(p, Scale(Z, m));
    CornersInBasis(p, Y, Z, c, m);
    ProperCameraSizes(c);
    LocalWindings(c.nw, c.nh, c.fw, c.fh, m - c.nearD, m - c.farD);
    var lk := LocalCorners(c.nw, c.nh, c.fw, c.fh, m - c.nearD, m - c.farD);
    PlaneSignInBasis(Y, Z, o, lk.ntr, lk.ntl, lk.ftl, k.ntr, k.ntl, k.ftl, k.ftr, inv);
    PlaneSignInBasis(Y, Z, o, lk.nbl, lk.nbr, lk.fbr, k.nbl, k.nbr, k.fbr, k.fbl, inv);
    PlaneSignInBasis(Y, Z, o, lk.ntl, lk.nbl, lk.fbl, k.ntl, k.nbl, k.fbl, k.ftl, inv);
    PlaneSignInBasis(Y, Z, o, lk.nbr, lk.ntr, lk.ftr, k.nbr, k.ntr, k.ftr, k.fbr, inv);
    PlaneSignInBasis(Y, Z, o, lk.ntl, lk.ntr, lk.nbr, k.ntl, k.ntr, k.nbr, k.nbl, inv);
    PlaneSignInBasis(Y, Z, o, lk.ftr, lk.ftl, lk.fbl, k.ftr, k.ftl, k.fbl, k.fbr, inv);
  }

  /** Winding check of `setCamDef`: with `Z = normalize(l)` and
      `Y = normalize(u)` unit and orthogonal, `0 < nearD < farD` and positive
      `tang` and aspect ratio, each point `p - Z*m` with `nearD < m < farD`
      lies strictly on the inner side of all six planes. */
  lemma {:induction false} AxisPointsInside(f: FrustumG, p: Vec3, l: Vec3, u: Vec3, inv: Vec3 -> real, m: real)
    requires PositiveScaling(inv)
    requires Orthonormal(Normalize(u, inv), Normalize(l, inv))
    requires ProperCamera(f.cam)
    requires f.cam.nearD < m < f.cam.farD
    ensures var g := SetCamDef(f, p, l, u, inv);
            forall i :: 0 <= i < |g.planes| ==> Distance(g.planes[i], Sub(p, Scale(Normalize(l, inv), m))) > 0.0
  {
    var Z := Normalize(l, inv);
    var Y := Normalize(u, inv);
    CornerPlanesInside(p, Y, Z, f.cam, inv, m);
  }
}
