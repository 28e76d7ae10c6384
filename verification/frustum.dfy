/** View-frustum culling: planes built from the camera, and the
    classification of a bounding box (a list of corners) as outside,
    intersecting or inside the six half-spaces.

    `glm::normalize` is modelled as scaling by a factor supplied by the caller
    (`inv`, standing for one over the length of its argument); `tan` of the
    half field of view is an input.  Classification only looks at signs, so it
    does not depend on that scaling (see `ClassifyScaleInvariant`). */
module Frustum {
  import opened Linear

  /** A plane with `Distance(p) == dot(norm, p) + d`; `_A`, `_B`, `_C` of the
      source are the components of `norm` and are not kept separately. */
  datatype Plane = Plane(norm: Vec3, d: real)

  function Distance(pl: Plane, p: Vec3): real
  {
    Dot(pl.norm, p) + pl.d
  }

  /** The stand-in for `glm::normalize`: scale by the factor `inv(v)`. */
  function Normalize(v: Vec3, inv: Vec3 -> real): Vec3
  {
    Scale(v, inv(v))
  }

  /** The normalization oracle is a positive scaling, as `1/|v|` is for every
      non-zero `v`. */
  ghost predicate PositiveScaling(inv: Vec3 -> real)
  {
    forall v :: inv(v) > 0.0
  }

  /** `Plane::setPoints`: the normal is `normalize(cross(b - a, c - a))` and
      the constant makes `a` lie on the plane; the fourth point is unused.
      All three given points lie on the resulting plane, whatever the scaling. */
  function SetPoints(a: Vec3, b: Vec3, c: Vec3, unused: Vec3, inv: Vec3 -> real): (pl: Plane)
    ensures Distance(pl, a) == 0.0
    ensures Distance(pl, b) == 0.0
    ensures Distance(pl, c) == 0.0
  {
    var v := Sub(b, a);
    var u := Sub(c, a);
    var n := Normalize(Cross(v, u), inv);
    CrossOrthogonal(v, u);
    DotScaleLeft(Cross(v, u), inv(Cross(v, u)), v);
    DotScaleLeft(Cross(v, u), inv(Cross(v, u)), u);
    DotSub(n, b, a);
    DotSub(n, c, a);
    Plane(n, Dot(Neg(n), a))
  }

  /** The signed distance to a plane from `SetPoints` is the distance of the
      point from `a` along the unnormalized normal, times the scaling. */
  lemma SetPointsDistance(a: Vec3, b: Vec3, c: Vec3, unused: Vec3, inv: Vec3 -> real, q: Vec3)
    ensures var n := Cross(Sub(b, a), Sub(c, a));
            Distance(SetPoints(a, b, c, unused, inv), q) == inv(n) * Dot(n, Sub(q, a))
  {
    var n := Cross(Sub(b, a), Sub(c, a));
    DotScaleLeft(n, inv(n), Sub(q, a));
    DotSub(Scale(n, inv(n)), q, a);
  }

  /** The camera internals kept by `FrustumG::setCamInternals`. */
  datatype Internals = Internals(angle: real, ratio: real, nearD: real, farD: real,
                                 tang: real, nh: real, nw: real, fh: real, fw: real)

  /** `setCamInternals`, with `tang == tan(radians(angle) / 2)` given as an
      input.  The near and far rectangles are similar: heights scale with the
      clip distances and every width is its height times the aspect ratio. */
  function SetCamInternals(angle: real, ratio: real, nearD: real, farD: real, tang: real): (c: Internals)
    ensures c.angle == angle && c.ratio == ratio && c.nearD == nearD && c.farD == farD && c.tang == tang
    ensures c.fh * c.nearD == c.nh * c.farD
    ensures c.fw * c.nh == c.fh * c.nw
    ensures c.nw == c.nh * ratio && c.fw == c.fh * ratio
    ensures c.nh == nearD * tang
  {
    var nh := nearD * tang;
    var fh := farD * tang;
    Internals(angle, ratio, nearD, farD, tang, nh, nh * ratio, fh, fh * ratio)
  }

  datatype Corners = Corners(ntl: Vec3, ntr: Vec3, nbl: Vec3, nbr: Vec3,
                             ftl: Vec3, ftr: Vec3, fbl: Vec3, fbr: Vec3)

  /** Plane slots, in the order of the source's anonymous enum. */
  const TOP: nat := 0
  const BOTTOM: nat := 1
  const LEFT: nat := 2
  const RIGHT: nat := 3
  const NEARP: nat := 4
  const FARP: nat := 5

  /** `FrustumG`: internals, the eight corners, the planes and the debug
      switch `doCheck`. The source holds exactly six planes; the
      classification below is stated for any list. */
  datatype FrustumG = FrustumG(cam: Internals, corners: Corners, planes: seq<Plane>, doCheck: bool)

  ghost predicate Valid(f: FrustumG)
  {
    |f.planes| == 6
  }

  function Centroid4(a: Vec3, b: Vec3, c: Vec3, d: Vec3): Vec3
  {
    Scale(Add(Add(a, b), Add(c, d)), 0.25)
  }

  /** `setCamDef(p, l, u)`: `Z = normalize(l)` is the camera's backward axis,
      `Y = normalize(u)`, `X = cross(Y, Z)`; the near and far centres lie at
      `p - Z*nearD` and `p - Z*farD`. */
  function SetCamDef(f: FrustumG, p: Vec3, l: Vec3, u: Vec3, inv: Vec3 -> real): (g: FrustumG)
    ensures Valid(g)
    ensures g.cam == f.cam && g.doCheck == f.doCheck
    ensures var k := g.corners;
            && Centroid4(k.ntl, k.ntr, k.nbl, k.nbr) == Sub(p, Scale(Normalize(l, inv), f.cam.nearD))
            && Centroid4(k.ftl, k.ftr, k.fbl, k.fbr) == Sub(p, Scale(Normalize(l, inv), f.cam.farD))
    ensures var k := g.corners;
            && Distance(g.planes[TOP], k.ntr) == 0.0 && Distance(g.planes[TOP], k.ntl) == 0.0
            && Distance(g.planes[TOP], k.ftl) == 0.0
            && Distance(g.planes[BOTTOM], k.nbl) == 0.0 && Distance(g.planes[BOTTOM], k.nbr) == 0.0
            && Distance(g.planes[BOTTOM], k.fbr) == 0.0
            && Distance(g.planes[LEFT], k.ntl) == 0.0 && Distance(g.planes[LEFT], k.nbl) == 0.0
            && Distance(g.planes[LEFT], k.fbl) == 0.0
            && Distance(g.planes[RIGHT], k.nbr) == 0.0 && Distance(g.planes[RIGHT], k.ntr) == 0.0
            && Distance(g.planes[RIGHT], k.ftr) == 0.0
            && Distance(g.planes[NEARP], k.ntl) == 0.0 && Distance(g.planes[NEARP], k.ntr) == 0.0
            && Distance(g.planes[NEARP], k.nbr) == 0.0
            && Distance(g.planes[FARP], k.ftr) == 0.0 && Distance(g.planes[FARP], k.ftl) == 0.0
            && Distance(g.planes[FARP], k.fbl) == 0.0
  {
    var c := f.cam;
    var Z := Normalize(l, inv);
    var Y := Normalize(u, inv);
    var X := Cross(Y, Z);
    var k := CornersOf(p, X, Y, Z, c);
    FrustumG(c, k, PlanesOf(k, inv), f.doCheck)
  }

  /** The eight corners: near/far centre, plus or minus the half extents
      along the camera's up (`Y`) and right (`X`) axes. */
  function CornersOf(p: Vec3, X: Vec3, Y: Vec3, Z: Vec3, c: Internals): Corners
  {
    var nc := Sub(p, Scale(Z, c.nearD));
    var fc := Sub(p, Scale(Z, c.farD));
    Corners(Sub(Add(nc, Scale(Y, c.nh)), Scale(X, c.nw)),
            Add(Add(nc, Scale(Y, c.nh)), Scale(X, c.nw)),
            Sub(Sub(nc, Scale(Y, c.nh)), Scale(X, c.nw)),
            Add(Sub(nc, Scale(Y, c.nh)), Scale(X, c.nw)),
            Sub(Add(fc, Scale(Y, c.fh)), Scale(X, c.fw)),
            Add(Add(fc, Scale(Y, c.fh)), Scale(X, c.fw)),
            Sub(Sub(fc, Scale(Y, c.fh)), Scale(X, c.fw)),
            Add(Sub(fc, Scale(Y, c.fh)), Scale(X, c.fw)))
  }

  /** The six planes, each from a fixed corner triple whose winding makes
      the inside the positive side. */
  function PlanesOf(k: Corners, inv: Vec3 -> real): seq<Plane>
  {
    [SetPoints(k.ntr, k.ntl, k.ftl, k.ftr, inv),
     SetPoints(k.nbl, k.nbr, k.fbr, k.fbl, inv),
     SetPoints(k.ntl, k.nbl, k.fbl, k.ftl, inv),
     SetPoints(k.nbr, k.ntr, k.ftr, k.fbr, inv),
     SetPoints(k.ntl, k.ntr, k.nbr, k.nbl, inv),
     SetPoints(k.ftr, k.ftl, k.fbl, k.fbr, inv)]
  }

  /** Result of `boxInFrustum`; `Code` is the source's enum value. */
  datatype Containment = Outside | Intersect | Inside
  {
    function Code(): int
    {
      match this
      case Outside => 0
      case Intersect => 1
      case Inside => 2
    }
  }

  /** Every corner has negative distance to the plane. */
  ghost predicate AllOut(pl: Plane, box: seq<Vec3>)
  {
    forall k :: 0 <= k < |box| ==> Distance(pl, box[k]) < 0.0
  }

  /** Some corner has negative distance to the plane. */
  ghost predicate SomeOut(pl: Plane, box: seq<Vec3>)
  {
    exists k :: 0 <= k < |box| && Distance(pl, box[k]) < 0.0
  }

  /** Reference meaning of the classification: OUTSIDE iff one plane has
      every corner behind it; otherwise INTERSECT iff some plane has a corner
      behind it; otherwise INSIDE.  With culling switched off, INSIDE. */
  ghost function Classify(f: FrustumG, box: seq<Vec3>): Containment
  {
    if !f.doCheck then Inside
    else if exists i :: 0 <= i < |f.planes| && AllOut(f.planes[i], box) then Outside
    else if exists i :: 0 <= i < |f.planes| && SomeOut(f.planes[i], box) then Intersect
    else Inside
  }

  /** `boxInFrustum`, with the source's per-plane corner loop that stops as
      soon as it has seen a corner on each side. */
  method BoxInFrustum(f: FrustumG, box: seq<Vec3>) returns (r: Containment)
    ensures r == Classify(f, box)
    ensures !f.doCheck ==> r == Inside
  {
    if !f.doCheck {
      return Inside;
    }
    var result := Inside;
    var i := 0;
    while i < |f.planes|
      invariant 0 <= i <= |f.planes|
      invariant forall j :: 0 <= j < i ==> !AllOut(f.planes[j], box)
      invariant result == (if exists j :: 0 <= j < i && SomeOut(f.planes[j], box) then Intersect else Inside)
    {
      var pl := f.planes[i];
      var out := 0;
      var inn := 0;
      var k := 0;
      while k < |box| && (inn == 0 || out == 0)
        invariant 0 <= k <= |box|
        invariant inn > 0 <==> exists j :: 0 <= j < k && Distance(pl, box[j]) >= 0.0
        invariant out > 0 <==> exists j :: 0 <= j < k && Distance(pl, box[j]) < 0.0
        invariant inn >= 0 && out >= 0
      {
        if Distance(pl, box[k]) < 0.0 {
          out := out + 1;
        } else {
          inn := inn + 1;
        }
        k := k + 1;
      }
      if inn == 0 {
        assert AllOut(pl, box);
        return Outside;
      } else if out > 0 {
        assert SomeOut(pl, box);
        result := Intersect;
      } else {
        assert !SomeOut(pl, box);
      }
      i := i + 1;
    }
    return result;
  }

  /** With `doCheck` false every box is INSIDE, however far away. */
  lemma CullingDisabledIsInside(f: FrustumG, box: seq<Vec3>)
    requires !f.doCheck
    ensures Classify(f, box) == Inside
  {
  }

  /** The classification reads the corners as a set: reordering or
      duplicating corners changes nothing. */
  lemma ClassifyDependsOnCornerSet(f: FrustumG, box1: seq<Vec3>, box2: seq<Vec3>)
    requires forall c :: c in box1 <==> c in box2
    ensures Classify(f, box1) == Classify(f, box2)
  {
    forall pl: Plane
      ensures AllOut(pl, box1) <==> AllOut(pl, box2)
      ensures SomeOut(pl, box1) <==> SomeOut(pl, box2)
    {
      SetOfCorners(pl, box1, box2);
      SetOfCorners(pl, box2, box1);
    }
  }

  lemma SetOfCorners(pl: Plane, box1: seq<Vec3>, box2: seq<Vec3>)
    requires forall c :: c in box1 <==> c in box2
    ensures AllOut(pl, box1) ==> AllOut(pl, box2)
    ensures SomeOut(pl, box1) ==> SomeOut(pl, box2)
  {
    if AllOut(pl, box1) {
      forall k | 0 <= k < |box2|
        ensures Distance(pl, box2[k]) < 0.0
      {
        assert box2[k] in box1;
        var j :| 0 <= j < |box1| && box1[j] == box2[k];
      }
    }
    if SomeOut(pl, box1) {
      var k :| 0 <= k < |box1| && Distance(pl, box1[k]) < 0.0;
      assert box1[k] in box2;
      var j :| 0 <= j < |box2| && box2[j] == box1[k];
    }
  }

  /** An empty corner list is OUTSIDE once culling is on (and there is a plane). */
  lemma EmptyBoxIsOutside(f: FrustumG)
    requires f.doCheck && Valid(f)
    ensures Classify(f, []) == Outside
  {
    assert AllOut(f.planes[0], []);
  }

  function ScalePlane(pl: Plane, s: real): Plane
  {
    Plane(Scale(pl.norm, s), pl.d * s)
  }

  /** Scaling every plane by a positive factor (the effect of a different
      normalization) leaves the classification unchanged. */
  lemma ClassifyScaleInvariant(f: FrustumG, s: seq<real>, box: seq<Vec3>)
    requires |s| == |f.planes|
    requires forall i :: 0 <= i < |s| ==> s[i] > 0.0
    ensures var g := f.(planes := seq(|f.planes|, i requires 0 <= i < |f.planes| => ScalePlane(f.planes[i], s[i])));
            Classify(g, box) == Classify(f, box)
  {
    var g := f.(planes := seq(|f.planes|, i requires 0 <= i < |f.planes| => ScalePlane(f.planes[i], s[i])));
    forall i, k | 0 <= i < |f.planes| && 0 <= k < |box|
      ensures Distance(g.planes[i], box[k]) < 0.0 <==> Distance(f.planes[i], box[k]) < 0.0
    {
      var pl := f.planes[i];
      assert Distance(g.planes[i], box[k]) == s[i] * Distance(pl, box[k]);
      PositiveFactorSign(s[i], Distance(pl, box[k]));
    }
    forall i | 0 <= i < |f.planes|
      ensures AllOut(g.planes[i], box) <==> AllOut(f.planes[i], box)
      ensures SomeOut(g.planes[i], box) <==> SomeOut(f.planes[i], box)
    {
    }
  }

  lemma PositiveFactorSign(s: real, x: real)
    requires s > 0.0
    ensures s * x < 0.0 <==> x < 0.0
  {
    if x < 0.0 {
      assert s * x < s * 0.0;
    } else {
      assert s * x >= s * 0.0;
    }
  }
}
