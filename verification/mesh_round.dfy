/** The round mesh generators of `Mesh`: cylinder and UV sphere.

    The sines and cosines of the source are inputs: `circle(i)` is the
    point (cos, sin) of the i-th segment angle on the unit circle,
    `point(i, j)` the sphere vertex of ring i and segment j, and `unit`
    stands for `glm::normalize`.  What is modelled exactly is how many
    vertices are emitted, in which order, and which indices join them. */
module RoundMeshes {
  import opened Linear
  import opened CInt
  import opened Meshes

  /** The ring wrap of both generators: `j == n - 1 ? base : base + j + 1`
      without the base. */
  function NextOnRing(j: int, n: int): int
  {
    if j == n - 1 then 0 else j + 1
  }

  /** The wrap is the successor modulo the ring size. */
  lemma WrapPattern(j: int, n: int)
    requires 0 <= j < n
    ensures NextOnRing(j, n) == (j + 1) % n
    ensures 0 <= NextOnRing(j, n) < n
  {
  }

  // ------------------------------------------------------------- cylinder

  /** The four vertices of segment i: bottom ring twice (cap, side), then
      top ring twice (cap, side). */
  function SegmentPositions(i: int, height: real, radius: real, circle: int -> Vec2): seq<Vec3>
  {
    var c := circle(i);
    var bottom := Vec3(c.x * radius, -height / 2.0, c.y * radius);
    var top := Vec3(c.x * radius, height / 2.0, c.y * radius);
    [bottom, bottom, top, top]
  }

  function SegmentNormals(i: int, height: real, radius: real, circle: int -> Vec2, unit: Vec3 -> Vec3): seq<Vec3>
  {
    var c := circle(i);
    var side := unit(Vec3(c.x * radius, 0.0, c.y * radius));
    [Vec3(0.0, -1.0, 0.0), side, Vec3(0.0, 1.0, 0.0), side]
  }

  /** Texture coordinates: the cap vertices map the unit circle into the
      unit square (`circlePos / radius + 0.5`), the side vertices run along
      the seam. */
  function SegmentUvs(i: int, segments: int, circle: int -> Vec2): seq<Vec2>
    requires segments > 0
  {
    var c := circle(i);
    var cap := Vec2(c.x + 0.5, c.y + 0.5);
    [cap, Vec2(i as real / segments as real, 0.0), cap, Vec2(i as real / segments as real, 1.0)]
  }

  /** The twelve indices segment i emits: bottom cap, top cap, two side
      triangles. */
  function SegmentIndices(s: int, i: int): (q: seq<int>)
    ensures |q| == 12
  {
    [ 0, 2 + i * 4, if i == s - 1 then 2 else 2 + (i + 1) * 4,
      1, if i == s - 1 then 4 else (i + 2) * 4, (i + 1) * 4,
      3 + i * 4, if i == s - 1 then 5 else 5 + (i + 1) * 4, if i == s - 1 then 3 else 3 + (i + 1) * 4,
      if i == s - 1 then 5 else 5 + (i + 1) * 4, 3 + i * 4, 5 + i * 4]
  }

  /** The positions after k iterations of the segment loop: the two cap
      centres, then four per segment. */
  function CylinderPositions(k: nat, height: real, radius: real, circle: int -> Vec2): (ps: seq<Vec3>)
    ensures |ps| == 2 + 4 * k
    ensures ps[0].y == -height / 2.0 && ps[1].y == height / 2.0
  {
    if k == 0 then [Vec3(0.0, -height / 2.0, 0.0), Vec3(0.0, height / 2.0, 0.0)]
    else CylinderPositions(k - 1, height, radius, circle) + SegmentPositions(k - 1, height, radius, circle)
  }

  function CylinderNormals(k: nat, height: real, radius: real, circle: int -> Vec2, unit: Vec3 -> Vec3): (ns: seq<Vec3>)
    ensures |ns| == 2 + 4 * k
  {
    if k == 0 then [Vec3(0.0, -1.0, 0.0), Vec3(0.0, 1.0, 0.0)]
    else CylinderNormals(k - 1, height, radius, circle, unit) + SegmentNormals(k - 1, height, radius, circle, unit)
  }

  function CylinderUvs(s: nat, k: nat, circle: int -> Vec2): (uvs: seq<Vec2>)
    requires k <= s
    ensures |uvs| == 2 + 4 * k
  {
    if k == 0 then [Vec2(0.5, 0.5), Vec2(0.5, 0.5)]
    else CylinderUvs(s, k - 1, circle) + SegmentUvs(k - 1, s, circle)
  }

  /** The indices after k iterations: twelve per segment. */
  function CylinderIndices(s: nat, k: nat): (q: seq<int>)
    ensures |q| == 12 * k
  {
    if k == 0 then [] else CylinderIndices(s, k - 1) + SegmentIndices(s, k - 1)
  }

  /** The cylinder after k iterations of the segment loop; each list grows
      by its segment's entries per iteration. */
  function CylinderLoop(s: nat, k: nat, height: real, radius: real, circle: int -> Vec2, unit: Vec3 -> Vec3): MeshData
    requires k <= s
  {
    MeshData(CylinderPositions(k, height, radius, circle),
             CylinderNormals(k, height, radius, circle, unit),
             CylinderUvs(s, k, circle),
             CylinderIndices(s, k))
  }

  /** `createCylinderMesh(segments, height, radius)`. */
  function CreateCylinderMesh(s: nat, height: real, radius: real, circle: int -> Vec2, unit: Vec3 -> Vec3): MeshData
  {
    CylinderLoop(s, s, height, radius, circle, unit)
  }

  /** Segment i's indices name vertices of a cylinder of s segments. */
  lemma SegmentInRange(s: nat, i: nat)
    requires i < s
    ensures AllBelow(SegmentIndices(s, i), 2 + 4 * s)
  {
  }

  lemma {:induction false} CylinderIndicesInRange(s: nat, k: nat)
    requires k <= s
    ensures AllBelow(CylinderIndices(s, k), 2 + 4 * s)
  {
    if k > 0 {
      CylinderIndicesInRange(s, k - 1);
      SegmentInRange(s, k - 1);
      AllBelowAppend(CylinderIndices(s, k - 1), SegmentIndices(s, k - 1), 2 + 4 * s);
    }
  }

  /** The cylinder has 2 + 4s vertices, normals and texture coordinates and
      12s indices, every one naming a vertex. */
  lemma CylinderShape(s: nat, height: real, radius: real, circle: int -> Vec2, unit: Vec3 -> Vec3)
    ensures var m := CreateCylinderMesh(s, height, radius, circle, unit);
      |m.positions| == |m.normals| == |m.uvs| == 2 + 4 * s && |m.indices| == 12 * s
    ensures IndicesInRange(CreateCylinderMesh(s, height, radius, circle, unit))
  {
    CylinderIndicesInRange(s, s);
  }

  /** Index 12i + t after k iterations is the t-th index of segment i. */
  lemma {:induction false} CylinderIndexAt(s: nat, k: nat, i: nat, t: nat)
    requires i < k && t < 12
    ensures CylinderIndices(s, k)[12 * i + t] == SegmentIndices(s, i)[t]
  {
    var prev := CylinderIndices(s, k - 1);
    assert CylinderIndices(s, k) == prev + SegmentIndices(s, k - 1);
    if i < k - 1 {
      CylinderIndexAt(s, k - 1, i, t);
      assert CylinderIndices(s, k)[12 * i + t] == prev[12 * i + t];
    } else {
      assert CylinderIndices(s, k)[12 * i + t] == SegmentIndices(s, k - 1)[t];
    }
  }

  /** Vertex 2 + 4i + t after k iterations is the t-th vertex of segment i. */
  lemma {:induction false} CylinderVertexAt(k: nat, i: nat, t: nat, height: real, radius: real, circle: int -> Vec2)
    requires i < k && t < 4
    ensures CylinderPositions(k, height, radius, circle)[2 + 4 * i + t] == SegmentPositions(i, height, radius, circle)[t]
  {
    var prev := CylinderPositions(k - 1, height, radius, circle);
    assert CylinderPositions(k, height, radius, circle) == prev + SegmentPositions(k - 1, height, radius, circle);
    if i < k - 1 {
      CylinderVertexAt(k - 1, i, t, height, radius, circle);
      assert CylinderPositions(k, height, radius, circle)[2 + 4 * i + t] == prev[2 + 4 * i + t];
    } else {
      assert CylinderPositions(k, height, radius, circle)[2 + 4 * i + t] == SegmentPositions(k - 1, height, radius, circle)[t];
    }
  }

  /** The cap triangles of segment i: the centre, its own ring vertex and
      the ring vertex of its neighbour n, which starts at vertex 2 + 4n. */
  lemma NeighbourIndices(s: nat, i: nat)
    requires i < s
    ensures SegmentIndices(s, i)[0] == 0 && SegmentIndices(s, i)[3] == 1
    ensures SegmentIndices(s, i)[1] == 2 + 4 * i && SegmentIndices(s, i)[5] == 4 + 4 * i
    ensures SegmentIndices(s, i)[2] == 2 + 4 * NextOnRing(i, s)
    ensures SegmentIndices(s, i)[4] == 4 + 4 * NextOnRing(i, s)
    ensures NextOnRing(i, s) < s
  {
  }

  /** Segment i's bottom-cap triangle has all three vertices in the bottom
      plane. */
  lemma CylinderBottomCapFlat(s: nat, i: nat, height: real, radius: real, circle: int -> Vec2, unit: Vec3 -> Vec3)
    requires i < s
    ensures |CreateCylinderMesh(s, height, radius, circle, unit).indices| == 12 * s
    ensures IndicesInRange(CreateCylinderMesh(s, height, radius, circle, unit))
    ensures var m := CreateCylinderMesh(s, height, radius, circle, unit);
      m.positions[m.indices[12 * i]].y == -height / 2.0
      && m.positions[m.indices[12 * i + 1]].y == -height / 2.0
      && m.positions[m.indices[12 * i + 2]].y == -height / 2.0
  {
    CylinderShape(s, height, radius, circle, unit);
    NeighbourIndices(s, i);
    var ps := CylinderPositions(s, height, radius, circle);
    var q := CylinderIndices(s, s);
    CylinderIndexAt(s, s, i, 0);
    CylinderIndexAt(s, s, i, 1);
    CylinderIndexAt(s, s, i, 2);
    CylinderVertexAt(s, i, 0, height, radius, circle);
    CylinderVertexAt(s, NextOnRing(i, s), 0, height, radius, circle);
    assert q[12 * i] == 0 && ps[0].y == -height / 2.0;
    assert q[12 * i + 1] == 2 + 4 * i + 0;
    assert q[12 * i + 2] == 2 + 4 * NextOnRing(i, s) + 0;
  }

  /** Segment i's top-cap triangle has all three vertices in the top plane. */
  lemma CylinderTopCapFlat(s: nat, i: nat, height: real, radius: real, circle: int -> Vec2, unit: Vec3 -> Vec3)
    requires i < s
    ensures |CreateCylinderMesh(s, height, radius, circle, unit).indices| == 12 * s
    ensures IndicesInRange(CreateCylinderMesh(s, height, radius, circle, unit))
    ensures var m := CreateCylinderMesh(s, height, radius, circle, unit);
      m.positions[m.indices[12 * i + 3]].y == height / 2.0
      && m.positions[m.indices[12 * i + 4]].y == height / 2.0
      && m.positions[m.indices[12 * i + 5]].y == height / 2.0
  {
    CylinderShape(s, height, radius, circle, unit);
    NeighbourIndices(s, i);
    var ps := CylinderPositions(s, height, radius, circle);
    var q := CylinderIndices(s, s);
    CylinderIndexAt(s, s, i, 3);
    CylinderIndexAt(s, s, i, 4);
    CylinderIndexAt(s, s, i, 5);
    CylinderVertexAt(s, NextOnRing(i, s), 2, height, radius, circle);
    CylinderVertexAt(s, i, 2, height, radius, circle);
    assert q[12 * i + 3] == 1 && ps[1].y == height / 2.0;
    assert q[12 * i + 4] == 2 + 4 * NextOnRing(i, s) + 2;
    assert q[12 * i + 5] == 2 + 4 * i + 2;
  }

  // --------------------------------------------------------------- sphere

  /** A 32-bit unsigned index expression: the source computes the
      sphere's indices in `unsigned int`, so each is its integer value
      modulo 2^32 (reducing once at the end equals reducing after every
      operation). */
  function U(x: int): U32 { Wrap32(x) }

  /** The six indices of iteration j of the first loop: a fan triangle at
      the north pole over the first ring and one at the south pole under
      the last ring, which starts at `2 + (lat - 2) * lon`. */
  function CapIndices(lon: int, lat: int, j: int): (q: seq<int>)
    ensures |q| == 6
  {
    var last := 2 + (lat - 2) * lon;
    [ 0, U(if j == lon - 1 then 2 else j + 3), U(2 + j),
      U(last + j), U(if j == lon - 1 then last else last + j + 1), 1]
  }

  function CapLoop(lon: int, lat: int, j: nat): seq<int>
  {
    if j == 0 then [] else CapLoop(lon, lat, j - 1) + CapIndices(lon, lat, j - 1)
  }

  /** The six indices of ring i (i >= 2), segment j: two triangles between
      ring i-1 (starting at `2 + (i-2)*lon`) and ring i. */
  function BandIndices(lon: int, i: int, j: int): (q: seq<int>)
    ensures |q| == 6
  {
    var upper := 2 + (i - 2) * lon;
    var lower := 2 + (i - 1) * lon;
    [ U(lower + j), U(if j == lon - 1 then upper else upper + j + 1), U(if j == lon - 1 then lower else lower + j + 1),
      U(if j == lon - 1 then upper else upper + j + 1), U(lower + j), U(upper + j)]
  }

  /** Ring i, segments 0 .. j-1; ring 1 emits no indices (`continue`). */
  function RingIndices(lon: int, i: int, j: nat): seq<int>
  {
    if j == 0 || i == 1 then [] else RingIndices(lon, i, j - 1) + BandIndices(lon, i, j - 1)
  }

  /** Rings 1 .. i-1. */
  function BodyIndices(lon: nat, i: nat): seq<int>
  {
    if i <= 1 then [] else BodyIndices(lon, i - 1) + RingIndices(lon, i - 1, lon)
  }

  /** The ring vertices of rings 1 .. i-1, ring after ring. */
  function BodyPositions(lon: nat, i: nat, point: (int, int) -> Vec3): seq<Vec3>
  {
    if i <= 1 then [] else BodyPositions(lon, i - 1, point) + seq(lon, j requires 0 <= j < lon => point(i - 1, j))
  }

  function BodyNormals(lon: nat, i: nat, point: (int, int) -> Vec3, unit: Vec3 -> Vec3): seq<Vec3>
  {
    if i <= 1 then [] else BodyNormals(lon, i - 1, point, unit) + seq(lon, j requires 0 <= j < lon => unit(point(i - 1, j)))
  }

  function BodyUvs(lon: nat, lat: nat, i: nat): seq<Vec2>
    requires i <= lat
  {
    if i <= 1 then [] else BodyUvs(lon, lat, i - 1) + seq(lon, j requires 0 <= j < lon => Vec2(j as real / lon as real, (i - 1) as real / lat as real))
  }

  /** `createSphereMesh(longitudeSegments, latitudeSegments, radius)`.  The
      pole normals are pushed unnormalised, as (0, ±radius, 0). With no
      longitude segments both loops are empty; with no latitude segments the
      ring loop is empty and the cap loop still runs, with `lat - 2` wrapped. */
  function CreateSphereMesh(lon: nat, lat: nat, radius: real, point: (int, int) -> Vec3, unit: Vec3 -> Vec3): MeshData
  {
    MeshData([Vec3(0.0, radius, 0.0), Vec3(0.0, -radius, 0.0)] + BodyPositions(lon, lat, point),
             [Vec3(0.0, radius, 0.0), Vec3(0.0, -radius, 0.0)] + BodyNormals(lon, lat, point, unit),
             [Vec2(0.0, 1.0), Vec2(0.0, 0.0)] + BodyUvs(lon, lat, lat),
             CapLoop(lon, lat, lon) + BodyIndices(lon, lat))
  }

  lemma {:induction false} BodyLength(lon: nat, lat: nat, i: nat, point: (int, int) -> Vec3, unit: Vec3 -> Vec3)
    requires lon > 0 && 1 <= i <= lat
    ensures |BodyPositions(lon, i, point)| == |BodyNormals(lon, i, point, unit)| == |BodyUvs(lon, lat, i)| == (i - 1) * lon
    ensures |BodyIndices(lon, i)| == 6 * lon * (if i >= 2 then i - 2 else 0)
  {
    if i > 1 {
      BodyLength(lon, lat, i - 1, point, unit);
      RingLength(lon, i - 1, lon);
      assert (i - 1) * lon == (i - 2) * lon + lon;
      if i > 2 {
        assert 6 * lon * (i - 2) == 6 * lon * (i - 3) + 6 * lon;
      }
    }
  }

  lemma {:induction false} RingLength(lon: int, i: int, j: nat)
    ensures |RingIndices(lon, i, j)| == if i == 1 then 0 else 6 * j
  {
    if j > 0 && i != 1 {
      RingLength(lon, i, j - 1);
    }
  }

  lemma {:induction false} CapLength(lon: int, lat: int, j: nat)
    ensures |CapLoop(lon, lat, j)| == 6 * j
  {
    if j > 0 {
      CapLength(lon, lat, j - 1);
    }
  }

  /** 2 + (lat-1)·lon vertices, normals and texture coordinates, and
      6·lon·(lat-1) indices once there are two latitude segments. */
  lemma SphereCounts(lon: nat, lat: nat, radius: real, point: (int, int) -> Vec3, unit: Vec3 -> Vec3)
    requires lon > 0 && lat >= 2
    ensures var m := CreateSphereMesh(lon, lat, radius, point, unit);
      |m.positions| == |m.normals| == |m.uvs| == 2 + (lat - 1) * lon
      && |m.indices| == 6 * lon * (lat - 1)
  {
    BodyLength(lon, lat, lat, point, unit);
    CapLength(lon, lat, lon);
    assert 6 * lon * (lat - 1) == 6 * lon + 6 * lon * (lat - 2);
  }

  lemma CapInRange(lon: nat, lat: nat, j: nat)
    requires 0 < lon && 2 <= lat && j < lon && 2 + (lat - 1) * lon < Two32
    ensures AllBelow(CapIndices(lon, lat, j), 2 + (lat - 1) * lon)
  {
    var a: nat := lat - 2;
    MulLess(lon, a, a + 1);
    assert a * lon == lon * a && (a + 1) * lon == lon * (a + 1);
  }

  lemma {:induction false} CapLoopInRange(lon: nat, lat: nat, j: nat)
    requires 0 < lon && 2 <= lat && j <= lon && 2 + (lat - 1) * lon < Two32
    ensures AllBelow(CapLoop(lon, lat, j), 2 + (lat - 1) * lon)
  {
    if j > 0 {
      CapLoopInRange(lon, lat, j - 1);
      CapInRange(lon, lat, j - 1);
      AllBelowAppend(CapLoop(lon, lat, j - 1), CapIndices(lon, lat, j - 1), 2 + (lat - 1) * lon);
    }
  }

  lemma BandInRange(lon: nat, lat: nat, i: nat, j: nat)
    requires 0 < lon && 2 <= i < lat && j < lon && 2 + (lat - 1) * lon < Two32
    ensures AllBelow(BandIndices(lon, i, j), 2 + (lat - 1) * lon)
  {
    var a: nat := i - 2;
    var b: nat := lat - 2;
    MulLess(lon, a, a + 1);
    if a + 1 < b + 1 {
      MulLess(lon, a + 1, b + 1);
    }
    assert a * lon == lon * a && (a + 1) * lon == lon * (a + 1) && (b + 1) * lon == lon * (b + 1);
  }

  lemma {:induction false} RingInRange(lon: nat, lat: nat, i: nat, j: nat)
    requires 0 < lon && 1 <= i < lat && j <= lon && 2 + (lat - 1) * lon < Two32
    ensures AllBelow(RingIndices(lon, i, j), 2 + (lat - 1) * lon)
  {
    if j > 0 && i != 1 {
      RingInRange(lon, lat, i, j - 1);
      BandInRange(lon, lat, i, j - 1);
      AllBelowAppend(RingIndices(lon, i, j - 1), BandIndices(lon, i, j - 1), 2 + (lat - 1) * lon);
    }
  }

  lemma {:induction false} BodyInRange(lon: nat, lat: nat, i: nat)
    requires 0 < lon && 2 <= lat && i <= lat && 2 + (lat - 1) * lon < Two32
    ensures AllBelow(BodyIndices(lon, i), 2 + (lat - 1) * lon)
  {
    if i > 1 {
      BodyInRange(lon, lat, i - 1);
      RingInRange(lon, lat, i - 1, lon);
      AllBelowAppend(BodyIndices(lon, i - 1), RingIndices(lon, i - 1, lon), 2 + (lat - 1) * lon);
    }
  }

  /** With at least one longitude and two latitude segments (and fewer than
      2^32 vertices), every index names a vertex. */
  lemma SphereInRange(lon: nat, lat: nat, radius: real, point: (int, int) -> Vec3, unit: Vec3 -> Vec3)
    requires lon > 0 && lat >= 2 && 2 + (lat - 1) * lon < Two32
    ensures IndicesInRange(CreateSphereMesh(lon, lat, radius, point, unit))
  {
    SphereCounts(lon, lat, radius, point, unit);
    CapLoopInRange(lon, lat, lon);
    BodyInRange(lon, lat, lat);
    AllBelowAppend(CapLoop(lon, lat, lon), BodyIndices(lon, lat), 2 + (lat - 1) * lon);
  }

  /** With a single latitude segment `lat - 2` wraps around: the south
      fan's first index is 2^32 + 2 - lon, far past the two vertices. */
  lemma SphereSingleLatitudeWraps(lon: nat, radius: real, point: (int, int) -> Vec3, unit: Vec3 -> Vec3)
    requires 0 < lon < Two32
    ensures |CreateSphereMesh(lon, 1, radius, point, unit).positions| == 2
    ensures |CreateSphereMesh(lon, 1, radius, point, unit).indices| == 6 * lon
    ensures CreateSphereMesh(lon, 1, radius, point, unit).indices[2] == 2
    ensures lon >= 3 ==> CreateSphereMesh(lon, 1, radius, point, unit).indices[3] == Two32 + 2 - lon
    ensures !IndicesInRange(CreateSphereMesh(lon, 1, radius, point, unit))
  {
    var m := CreateSphereMesh(lon, 1, radius, point, unit);
    CapLength(lon, 1, lon);
    assert CapLoop(lon, 1, 1) == CapIndices(lon, 1, 0);
    CapLoopPrefix(lon, 1, 1, lon);
    assert m.indices[..6] == CapIndices(lon, 1, 0);
    if lon >= 3 {
      WrapNegative(2 - lon);
    }
  }

  /** Without rings (no longitude segments, or at most one latitude
      segment) only the two poles are pushed. No longitude segments emit no
      indices; no latitude segments wrap `lat - 2` to 2^32 - 2, so from two
      longitude segments on the south fan indexes far past the poles. */
  lemma SphereWithoutRings(lon: nat, lat: nat, radius: real, point: (int, int) -> Vec3, unit: Vec3 -> Vec3)
    requires lon == 0 || lat <= 1
    ensures var m := CreateSphereMesh(lon, lat, radius, point, unit);
      && m.positions == [Vec3(0.0, radius, 0.0), Vec3(0.0, -radius, 0.0)]
      && m.normals == m.positions
      && m.uvs == [Vec2(0.0, 1.0), Vec2(0.0, 0.0)]
      && |m.indices| == 6 * lon
    ensures lon == 0 ==> CreateSphereMesh(lon, lat, radius, point, unit).indices == []
    ensures lat == 0 && 2 <= lon <= Two32 / 2 ==>
      && CreateSphereMesh(lon, lat, radius, point, unit).indices[3] == Two32 + 2 - 2 * lon
      && !IndicesInRange(CreateSphereMesh(lon, lat, radius, point, unit))
  {
    var m := CreateSphereMesh(lon, lat, radius, point, unit);
    CapLength(lon, lat, lon);
    if lon == 0 {
      EmptyRings(lat, lat, point, unit);
    }
    if lat == 0 && 2 <= lon <= Two32 / 2 {
      assert CapLoop(lon, 0, 1) == CapIndices(lon, 0, 0);
      CapLoopPrefix(lon, 0, 1, lon);
      assert m.indices[..6] == CapIndices(lon, 0, 0);
      WrapNegative(2 - 2 * lon);
    }
  }

  /** With no longitude segments every ring is empty. */
  lemma {:induction false} EmptyRings(lat: nat, i: nat, point: (int, int) -> Vec3, unit: Vec3 -> Vec3)
    requires i <= lat
    ensures BodyPositions(0, i, point) == [] && BodyNormals(0, i, point, unit) == []
    ensures BodyUvs(0, lat, i) == [] && BodyIndices(0, i) == []
  {
    if i > 1 {
      EmptyRings(lat, i - 1, point, unit);
      assert RingIndices(0, i - 1, 0) == [];
    }
  }

  lemma {:induction false} CapLoopPrefix(lon: int, lat: int, j: nat, j': nat)
    requires j <= j'
    ensures |CapLoop(lon, lat, j)| <= |CapLoop(lon, lat, j')|
    ensures CapLoop(lon, lat, j) == CapLoop(lon, lat, j')[..|CapLoop(lon, lat, j)|]
    decreases j' - j
  {
    if j < j' {
      CapLoopPrefix(lon, lat, j, j' - 1);
    }
  }
}
