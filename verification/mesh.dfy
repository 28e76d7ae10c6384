/** The static mesh generators of `Mesh` (plane, cube, skybox) and the
    model matrix of a `Mesh`.

    A generator's result is the vertex attribute lists and the index list
    it fills; the OpenGL buffers made from them are outside the model. */
module Meshes {
  import opened Linear
  import opened Transforms
  import opened CInt

  datatype MeshData = MeshData(positions: seq<Vec3>, normals: seq<Vec3>, uvs: seq<Vec2>, indices: seq<int>)

  /** Every index names a vertex. */
  predicate IndicesInRange(m: MeshData)
  {
    forall k :: 0 <= k < |m.indices| ==> 0 <= m.indices[k] < |m.positions|
  }

  /** Every element of `s` lies in [0, n). */
  predicate AllBelow(s: seq<int>, n: int)
  {
    forall k :: 0 <= k < |s| ==> 0 <= s[k] < n
  }

  lemma AllBelowAppend(a: seq<int>, b: seq<int>, n: int)
    requires AllBelow(a, n) && AllBelow(b, n)
    ensures AllBelow(a + b, n)
  {
  }

  const Up: Vec3 := Vec3(0.0, 1.0, 0.0)


  // ---------------------------------------------------------------- plane

  /** The two triangles `createPlaneMesh` emits for grid cell (w, h):
      vertex `d*w + h` and its neighbours one step along h and along w. */
  function PlaneQuad(d: int, w: int, h: int): (q: seq<int>)
    ensures |q| == 6
  {
    var i := d * w + h;
    [i + d, i + d + 1, i + 1, i + 1, i, i + d]
  }

  /** Whether cell (w, h) emits its quad.  The source tests
      `w < d - 1 || h < d - 1`; the grid has a quad exactly where both
      hold (`corrected`). */
  predicate Emits(d: int, w: int, h: int, corrected: bool)
  {
    if corrected then w < d - 1 && h < d - 1 else w < d - 1 || h < d - 1
  }

  /** The indices of row `w`, cells 0 .. h-1, in loop order. */
  function PlaneRow(d: int, w: int, h: nat, corrected: bool): seq<int>
  {
    if h == 0 then []
    else PlaneRow(d, w, h - 1, corrected) + (if Emits(d, w, h - 1, corrected) then PlaneQuad(d, w, h - 1) else [])
  }

  /** The indices of rows 0 .. w-1. */
  function PlaneRows(d: nat, w: nat, corrected: bool): seq<int>
  {
    if w == 0 then [] else PlaneRows(d, w - 1, corrected) + PlaneRow(d, w - 1, d, corrected)
  }

  /** Vertex `w*d + h` sits at (h - d/2, 0, w - d/2). */
  function PlanePositions(d: nat): (ps: seq<Vec3>)
    ensures |ps| == d * d
  {
    seq(d * d, k requires 0 <= k < d * d => Vec3((k % d - d / 2) as real, 0.0, (k / d - d / 2) as real))
  }

  /** `createPlaneMesh(dimensions)` as written (`corrected == false`) or
      with the intended `&&` guard. A non-positive size runs no loop. */
  function PlaneMesh(d: int, corrected: bool): (m: MeshData)
  {
    if d <= 0 then MeshData([], [], [], [])
    else MeshData(PlanePositions(d), seq(d * d, _ => Up), [], PlaneRows(d, d, corrected))
  }

  function CreatePlaneMesh(d: int): MeshData { PlaneMesh(d, false) }

  function CreatePlaneMeshCorrected(d: int): MeshData { PlaneMesh(d, true) }

  /** How many of the cells (w, 0 .. h-1) emit a quad. */
  function RowCells(d: int, w: int, h: int, corrected: bool): int
  {
    if corrected then (if w < d - 1 then Min(h, d - 1) else 0)
    else (if w < d - 1 then h else Min(h, d - 1))
  }

  lemma {:induction false} PlaneRowLength(d: int, w: int, h: nat, corrected: bool)
    requires 1 <= d && h <= d
    ensures |PlaneRow(d, w, h, corrected)| == 6 * RowCells(d, w, h, corrected)
  {
    if h > 0 {
      PlaneRowLength(d, w, h - 1, corrected);
      var e := Emits(d, w, h - 1, corrected);
      assert RowCells(d, w, h, corrected) == RowCells(d, w, h - 1, corrected) + (if e then 1 else 0);
      var tail := if e then PlaneQuad(d, w, h - 1) else [];
      assert |tail| == if e then 6 else 0;
      assert PlaneRow(d, w, h, corrected) == PlaneRow(d, w, h - 1, corrected) + tail;
    }
  }

  lemma {:induction false} PlaneRowsLength(d: nat, w: nat, corrected: bool)
    requires 1 <= d && w <= d
    ensures !corrected ==> |PlaneRows(d, w, corrected)| == 6 * (if w < d then d * w else d * d - 1)
    ensures corrected ==> |PlaneRows(d, w, corrected)| == 6 * (d - 1) * Min(w, d - 1)
  {
    if w > 0 {
      PlaneRowsLength(d, w - 1, corrected);
      PlaneRowLength(d, w - 1, d, corrected);
      if !corrected && w == d {
        assert d * d - 1 == d * (d - 1) + d - 1;
      }
    }
  }

  /** The as-written generator: d² vertices, all facing up, and six indices
      for every cell but the last. */
  lemma PlaneMeshCounts(d: int)
    requires d >= 1
    ensures |CreatePlaneMesh(d).positions| == |CreatePlaneMesh(d).normals| == d * d
    ensures forall k :: 0 <= k < d * d ==> CreatePlaneMesh(d).normals[k] == Up
    ensures |CreatePlaneMesh(d).indices| == 6 * (d * d - 1)
  {
    PlaneRowsLength(d, d, false);
  }

  /** The corrected generator: six indices per cell of the (d-1)² grid. */
  lemma PlaneMeshCorrectedCounts(d: int)
    requires d >= 1
    ensures |CreatePlaneMeshCorrected(d).positions| == |CreatePlaneMeshCorrected(d).normals| == d * d
    ensures |CreatePlaneMeshCorrected(d).indices| == 6 * (d - 1) * (d - 1)
  {
    PlaneRowsLength(d, d, true);
  }

  /** The grid point of row w, column h, centred on the origin. */
  function GridPoint(d: int, w: int, h: int): Vec3
  {
    Vec3((h - d / 2) as real, 0.0, (w - d / 2) as real)
  }

  /** The vertex pushed for cell (w, h). */
  lemma PlanePositionAt(d: nat, w: nat, h: nat)
    requires w < d && h < d
    ensures d * w + h < d * d
    ensures PlanePositions(d)[d * w + h] == GridPoint(d, w, h)
  {
    MulLess(d, w, d);
    DivModOf(d, w, h);
  }

  lemma DivModOf(d: nat, w: nat, h: nat)
    requires h < d
    ensures (d * w + h) / d == w && (d * w + h) % d == h
  {
    var k := d * w + h;
    var q, r := k / d, k % d;
    assert k == d * q + r;
    if q > w {
      MulLess(d, w, q);
      assert false;
    } else if q < w {
      MulLess(d, q, w);
      assert false;
    }
  }

  lemma {:induction false} MulLess(d: nat, a: int, b: int)
    requires a < b
    ensures d * a + d <= d * b
    decreases b - a
  {
    if a + 1 < b {
      MulLess(d, a, b - 1);
      assert d * b == d * (b - 1) + d;
    } else {
      assert d * b == d * a + d;
    }
  }

  /** A quad of a cell inside the grid names only vertices of the grid. */
  lemma QuadInRange(d: nat, w: nat, h: nat)
    requires w < d - 1 && h < d - 1
    ensures AllBelow(PlaneQuad(d, w, h), d * d)
  {
    MulLess(d, w, d - 1);
    assert d * (d - 1) + d == d * d;
  }

  /** The quad of cell (w, h) is the square between vertices (w, h),
      (w, h+1), (w+1, h) and (w+1, h+1) of the grid. */
  lemma QuadIsGridSquare(d: nat, w: nat, h: nat)
    requires w < d - 1 && h < d - 1
    ensures AllBelow(PlaneQuad(d, w, h), d * d)
    ensures PlanePositions(d)[PlaneQuad(d, w, h)[4]] == GridPoint(d, w, h)
    ensures PlanePositions(d)[PlaneQuad(d, w, h)[2]] == GridPoint(d, w, h + 1)
    ensures PlanePositions(d)[PlaneQuad(d, w, h)[0]] == GridPoint(d, w + 1, h)
    ensures PlanePositions(d)[PlaneQuad(d, w, h)[1]] == GridPoint(d, w + 1, h + 1)
  {
    QuadInRange(d, w, h);
    QuadIndices(d, w, h);
    PlanePositionAt(d, w, h);
    PlanePositionAt(d, w, h + 1);
    PlanePositionAt(d, w + 1, h);
    PlanePositionAt(d, w + 1, h + 1);
  }

  lemma QuadIndices(d: nat, w: nat, h: nat)
    ensures PlaneQuad(d, w, h)[4] == d * w + h && PlaneQuad(d, w, h)[2] == d * w + (h + 1)
    ensures PlaneQuad(d, w, h)[0] == d * (w + 1) + h && PlaneQuad(d, w, h)[1] == d * (w + 1) + (h + 1)
  {
    assert d * (w + 1) == d * w + d;
  }

  lemma {:induction false} PlaneRowInRange(d: nat, w: nat, h: nat)
    requires h <= d
    ensures AllBelow(PlaneRow(d, w, h, true), d * d)
  {
    if h > 0 {
      PlaneRowInRange(d, w, h - 1);
      if Emits(d, w, h - 1, true) {
        QuadInRange(d, w, h - 1);
        AllBelowAppend(PlaneRow(d, w, h - 1, true), PlaneQuad(d, w, h - 1), d * d);
      }
    }
  }

  lemma {:induction false} PlaneRowsInRange(d: nat, w: nat)
    ensures AllBelow(PlaneRows(d, w, true), d * d)
  {
    if w > 0 {
      PlaneRowsInRange(d, w - 1);
      PlaneRowInRange(d, w - 1, d);
      AllBelowAppend(PlaneRows(d, w - 1, true), PlaneRow(d, w - 1, d, true), d * d);
    }
  }

  /** With the intended guard every index names a vertex. */
  lemma PlaneMeshCorrectedInRange(d: int)
    ensures IndicesInRange(CreatePlaneMeshCorrected(d))
  {
    if d > 0 {
      PlaneRowsInRange(d, d);
    }
  }

  lemma {:induction false} PlaneRowGrows(d: int, w: int, h: nat, h': nat, corrected: bool, v: int)
    requires h <= h' && v in PlaneRow(d, w, h, corrected)
    ensures v in PlaneRow(d, w, h', corrected)
    decreases h' - h
  {
    if h < h' {
      PlaneRowGrows(d, w, h, h' - 1, corrected, v);
    }
  }

  /** As written, the last row emits the quad of cell (d-1, 0), whose first
      index is d², one past the last vertex. */
  lemma PlaneMeshOutOfRange(d: int)
    requires d >= 2
    ensures d * d in CreatePlaneMesh(d).indices
    ensures |CreatePlaneMesh(d).positions| == d * d
    ensures !IndicesInRange(CreatePlaneMesh(d))
  {
    assert d * (d - 1) + 0 + d == d * d;
    assert PlaneRow(d, d - 1, 1, false) == PlaneQuad(d, d - 1, 0);
    assert PlaneQuad(d, d - 1, 0)[0] == d * d;
    PlaneRowGrows(d, d - 1, 1, d, false, d * d);
    var m := CreatePlaneMesh(d);
    assert m.indices == PlaneRows(d, d - 1, false) + PlaneRow(d, d - 1, d, false);
    assert d * d in m.indices;
    var k :| 0 <= k < |m.indices| && m.indices[k] == d * d;
  }

  // ----------------------------------------------------------------- cube

  /** The k-th vertex (k < 4) of cube face f, in the source's order: faces
      front, back, right, left, top, bottom; (x, y, z) are the half
      extents. */
  function CubeCorner(f: int, k: int, x: real, y: real, z: real): Vec3
  {
    if f == 0 then Pick4(k % 4, Vec3(-x, -y, z), Vec3(x, -y, z), Vec3(x, y, z), Vec3(-x, y, z))
    else if f == 1 then Pick4(k % 4, Vec3(x, -y, -z), Vec3(-x, -y, -z), Vec3(-x, y, -z), Vec3(x, y, -z))
    else if f == 2 then Pick4(k % 4, Vec3(x, -y, z), Vec3(x, -y, -z), Vec3(x, y, -z), Vec3(x, y, z))
    else if f == 3 then Pick4(k % 4, Vec3(-x, -y, -z), Vec3(-x, -y, z), Vec3(-x, y, z), Vec3(-x, y, -z))
    else if f == 4 then Pick4(k % 4, Vec3(-x, y, -z), Vec3(-x, y, z), Vec3(x, y, z), Vec3(x, y, -z))
    else Pick4(k % 4, Vec3(-x, -y, -z), Vec3(x, -y, -z), Vec3(x, -y, z), Vec3(-x, -y, z))
  }

  /** The j-th of four vertices. */
  function Pick4(j: int, a: Vec3, b: Vec3, c: Vec3, d: Vec3): Vec3
  {
    if j == 0 then a else if j == 1 then b else if j == 2 then c else d
  }

  /** The j-th of six vertices. */
  function Pick6(j: int, a: Vec3, b: Vec3, c: Vec3, d: Vec3, e: Vec3, g: Vec3): Vec3
  {
    if j == 0 then a else if j == 1 then b else if j == 2 then c else if j == 3 then d else if j == 4 then e else g
  }

  /** The outward normal of cube face f. */
  function CubeNormal(f: int): Vec3
  {
    if f == 0 then Vec3(0.0, 0.0, 1.0)
    else if f == 1 then Vec3(0.0, 0.0, -1.0)
    else if f == 2 then Vec3(1.0, 0.0, 0.0)
    else if f == 3 then Vec3(-1.0, 0.0, 0.0)
    else if f == 4 then Vec3(0.0, 1.0, 0.0)
    else Vec3(0.0, -1.0, 0.0)
  }

  /** The texture corner of the k-th vertex of a face. */
  function FaceUv(k: int): Vec2
  {
    var j := k % 4;
    if j == 0 then Vec2(0.0, 0.0) else if j == 1 then Vec2(1.0, 0.0) else if j == 2 then Vec2(1.0, 1.0) else Vec2(0.0, 1.0)
  }

  /** The two triangles of a face, as offsets into its four vertices. */
  const QuadPattern: seq<int> := [0, 1, 2, 2, 3, 0]

  /** `createCubeMesh(width, height, depth)`: four vertices per face, each
      face two triangles over its own four vertices. */
  function CreateCubeMesh(width: real, height: real, depth: real): (m: MeshData)
    ensures |m.positions| == |m.normals| == |m.uvs| == 24 && |m.indices| == 36
  {
    var x, y, z := width / 2.0, height / 2.0, depth / 2.0;
    MeshData(
      seq(24, i requires 0 <= i < 24 => CubeCorner(i / 4, i % 4, x, y, z)),
      seq(24, i requires 0 <= i < 24 => CubeNormal(i / 4)),
      seq(24, i requires 0 <= i < 24 => FaceUv(i % 4)),
      seq(36, k requires 0 <= k < 36 => 4 * (k / 6) + QuadPattern[k % 6]))
  }

  /** The distance of face f's plane from the centre. */
  function CubeHalfExtent(f: int, width: real, height: real, depth: real): real
  {
    if f <= 1 then depth / 2.0 else if f <= 3 then width / 2.0 else height / 2.0
  }

  /** Face f's six indices name exactly its own four vertices. */
  lemma CubeFaceIndices(width: real, height: real, depth: real, f: int)
    requires 0 <= f < 6
    ensures forall t :: 6 * f <= t < 6 * f + 6 ==> 4 * f <= CreateCubeMesh(width, height, depth).indices[t] < 4 * f + 4
    ensures (set t | 6 * f <= t < 6 * f + 6 :: CreateCubeMesh(width, height, depth).indices[t])
            == {4 * f, 4 * f + 1, 4 * f + 2, 4 * f + 3}
  {
    var m := CreateCubeMesh(width, height, depth);
    forall t | 6 * f <= t < 6 * f + 6
      ensures m.indices[t] == 4 * f + QuadPattern[t - 6 * f]
    {
      assert t / 6 == f && t % 6 == t - 6 * f;
    }
    assert m.indices[6 * f] == 4 * f;
    assert m.indices[6 * f + 1] == 4 * f + 1;
    assert m.indices[6 * f + 2] == 4 * f + 2;
    assert m.indices[6 * f + 4] == 4 * f + 3;
  }

  /** Every index of the cube names one of its 24 vertices. */
  lemma CubeIndicesInRange(width: real, height: real, depth: real)
    ensures IndicesInRange(CreateCubeMesh(width, height, depth))
  {
  }

  /** Every vertex lies on the plane of its face: its normal is the unit
      outward axis, and the vertex is at the face's half extent along it. */
  lemma CubeVerticesOnFaces(width: real, height: real, depth: real, i: int)
    requires 0 <= i < 24
    ensures Dot(CreateCubeMesh(width, height, depth).normals[i], CreateCubeMesh(width, height, depth).normals[i]) == 1.0
    ensures Dot(CreateCubeMesh(width, height, depth).normals[i], CreateCubeMesh(width, height, depth).positions[i])
            == CubeHalfExtent(i / 4, width, height, depth)
  {
    CubeNormalUnit(i / 4);
    CubeCornerOnFace(i / 4, i % 4, width / 2.0, height / 2.0, depth / 2.0);
  }

  lemma CubeNormalUnit(f: int)
    ensures Dot(CubeNormal(f), CubeNormal(f)) == 1.0
  {
    var n := CubeNormal(f);
    if f == 0 {
      assert n == Vec3(0.0, 0.0, 1.0);
    } else if f == 1 {
      assert n == Vec3(0.0, 0.0, -1.0);
    } else if f == 2 {
      assert n == Vec3(1.0, 0.0, 0.0);
    } else if f == 3 {
      assert n == Vec3(-1.0, 0.0, 0.0);
    } else if f == 4 {
      assert n == Vec3(0.0, 1.0, 0.0);
    } else {
      assert n == Vec3(0.0, -1.0, 0.0);
    }
  }

  lemma CubeCornerOnFace(f: int, k: int, x: real, y: real, z: real)
    requires 0 <= f < 6
    ensures Dot(CubeNormal(f), CubeCorner(f, k, x, y, z)) == CubeHalfExtent(f, 2.0 * x, 2.0 * y, 2.0 * z)
  {
    var c := CubeCorner(f, k, x, y, z);
    if f == 0 {
      assert c.z == z;
    } else if f == 1 {
      assert c.z == -z;
    } else if f == 2 {
      assert c.x == x;
    } else if f == 3 {
      assert c.x == -x;
    } else if f == 4 {
      assert c.y == y;
    } else {
      assert c.y == -y;
    }
  }

  // --------------------------------------------------------------- skybox

  /** The k-th vertex (k < 6) of skybox face f, in the source's order:
      faces back, left, right, front, top, bottom, two triangles each. */
  function SkyboxCorner(f: int, k: int, x: real, y: real, z: real): Vec3
  {
    if f == 0 then Pick6(k % 6, Vec3(-x, y, -z), Vec3(-x, -y, -z), Vec3(x, -y, -z), Vec3(x, -y, -z), Vec3(x, y, -z), Vec3(-x, y, -z))
    else if f == 1 then Pick6(k % 6, Vec3(-x, -y, z), Vec3(-x, -y, -z), Vec3(-x, y, -z), Vec3(-x, y, -z), Vec3(-x, y, z), Vec3(-x, -y, z))
    else if f == 2 then Pick6(k % 6, Vec3(x, -y, -z), Vec3(x, -y, z), Vec3(x, y, z), Vec3(x, y, z), Vec3(x, y, -z), Vec3(x, -y, -z))
    else if f == 3 then Pick6(k % 6, Vec3(-x, -y, z), Vec3(-x, y, z), Vec3(x, y, z), Vec3(x, y, z), Vec3(x, -y, z), Vec3(-x, -y, z))
    else if f == 4 then Pick6(k % 6, Vec3(-x, y, -z), Vec3(x, y, -z), Vec3(x, y, z), Vec3(x, y, z), Vec3(-x, y, z), Vec3(-x, y, -z))
    else Pick6(k % 6, Vec3(-x, -y, -z), Vec3(-x, -y, z), Vec3(x, -y, -z), Vec3(x, -y, -z), Vec3(-x, -y, z), Vec3(x, -y, z))
  }

  /** The index list the source spells out: 0 .. 14, then 14 again, then
      15 .. 34.  It is only ever used for its length, since the skybox draws
      its positions as a plain array. */
  const SkyboxIndices: seq<int> := seq(36, k requires 0 <= k < 36 => if k <= 14 then k else k - 1)

  /** `createSkyboxMesh(width, height, depth)`: six vertices per face; no
      normals or texture coordinates. */
  function CreateSkyboxMesh(width: real, height: real, depth: real): (m: MeshData)
    ensures |m.positions| == 36 && |m.indices| == 36 && m.normals == [] && m.uvs == []
  {
    var x, y, z := width / 2.0, height / 2.0, depth / 2.0;
    MeshData(seq(36, i requires 0 <= i < 36 => SkyboxCorner(i / 6, i % 6, x, y, z)), [], [], SkyboxIndices)
  }

  /** The outward normal of skybox face f. */
  function SkyboxNormal(f: int): Vec3
  {
    if f == 0 then Vec3(0.0, 0.0, -1.0)
    else if f == 1 then Vec3(-1.0, 0.0, 0.0)
    else if f == 2 then Vec3(1.0, 0.0, 0.0)
    else if f == 3 then Vec3(0.0, 0.0, 1.0)
    else if f == 4 then Vec3(0.0, 1.0, 0.0)
    else Vec3(0.0, -1.0, 0.0)
  }

  function SkyboxHalfExtent(f: int, width: real, height: real, depth: real): real
  {
    if f == 0 || f == 3 then depth / 2.0 else if f <= 2 then width / 2.0 else height / 2.0
  }

  /** Every index names a vertex; the list repeats 14 and never reaches
      35, its largest entry being 34. */
  lemma SkyboxIndicesInRange(width: real, height: real, depth: real)
    ensures IndicesInRange(CreateSkyboxMesh(width, height, depth))
    ensures forall k :: 0 <= k < 36 ==> SkyboxIndices[k] <= 34
    ensures SkyboxIndices[14] == SkyboxIndices[15] == 14 && 35 !in SkyboxIndices
  {
  }

  /** The positions, drawn in order six at a time, lie each on the plane of
      their face, so every triangle of the array lies on one face. */
  lemma SkyboxTrianglesOnFaces(width: real, height: real, depth: real, i: int)
    requires 0 <= i < 36
    ensures Dot(SkyboxNormal(i / 6), CreateSkyboxMesh(width, height, depth).positions[i]) == SkyboxHalfExtent(i / 6, width, height, depth)
  {
    SkyboxCornerOnFace(i / 6, i % 6, width / 2.0, height / 2.0, depth / 2.0);
  }

  lemma SkyboxCornerOnFace(f: int, k: int, x: real, y: real, z: real)
    requires 0 <= f < 6
    ensures Dot(SkyboxNormal(f), SkyboxCorner(f, k, x, y, z)) == SkyboxHalfExtent(f, 2.0 * x, 2.0 * y, 2.0 * z)
  {
  }

  // ---------------------------------------------------------- model matrix

  /** A `Mesh`: its generated data and its model matrix. */
  datatype Mesh = Mesh(model: Mat, data: MeshData)

  /** `transform(t)` left-multiplies the model matrix. */
  function Transform(m: Mesh, t: Mat): (r: Mesh)
    ensures r.data == m.data && LeftFactor(t, r.model)
  {
    m.(model := Mul(t, m.model))
  }

  /** `resetModelMatrix()`. */
  function ResetModelMatrix(m: Mesh): (r: Mesh)
    ensures r.data == m.data && r.model == Identity
  {
    m.(model := Identity)
  }

  /** Transforming by a and then b is transforming by b·a; a reset forgets
      every transform before it. */
  lemma MeshTransformTwice(m: Mesh, a: Mat, b: Mat)
    ensures Transform(Transform(m, a), b) == Transform(m, Mul(b, a))
    ensures ResetModelMatrix(Transform(m, a)) == ResetModelMatrix(m)
  {
    MulAssoc(b, a, m.model);
  }
}
