/** The terrain grid (`Terrain`): vc × vc vertices over a square of side
    `dimension`, and the cells between them emitted either as four-vertex
    patches for the tessellation shader or as two triangles each for the
    shadow-map pass.

    The source walks the vertices row by row with a running counter `i`
    and emits the cell whose top-left vertex is `i` when `i` is not the
    last of its row and its row is not the last.  The reference below
    enumerates the cells themselves, row-major; `GenerateGrid` is proved
    to produce exactly that enumeration. */
module Terrains {
  import opened Linear
  import opened CInt
  import opened Meshes

  /** How a cell is handed to the GPU. */
  datatype Primitive = Patch | Triangles

  /** Indices per cell. */
  function Width(kind: Primitive): nat
  {
    match kind
    case Patch => 4
    case Triangles => 6
  }

  /** The indices of the cell whose top-left vertex is i: the patch runs
      top left, top right, bottom right, bottom left; the triangles are
      (i, i+vc, i+vc+1) and (i+vc+1, i+1, i). */
  function CellIndices(kind: Primitive, vc: int, i: int): (q: seq<int>)
    ensures |q| == Width(kind)
  {
    match kind
    case Patch => [i, i + 1, i + vc + 1, i + vc]
    case Triangles => [i, i + vc, i + vc + 1, i + vc + 1, i + 1, i]
  }

  /** Cells per side of the grid. */
  function Side(vc: int): nat
  {
    if vc <= 1 then 0 else vc - 1
  }

  /** Vertices in the grid. */
  function GridCount(vc: int): nat
  {
    if vc <= 0 then 0 else vc * vc
  }

  /** The top-left vertex of cell c in row-major cell order: row c / s,
      column c % s, with s cells per side. */
  function CellVertex(vc: int, c: int): int
  {
    var s := Side(vc);
    if s == 0 then 0 else (c / s) * vc + c % s
  }

  /** Reference: cells 0 .. c-1, one after the other. */
  function CellList(kind: Primitive, vc: int, c: nat): seq<int>
  {
    if c == 0 then [] else CellList(kind, vc, c - 1) + CellIndices(kind, vc, CellVertex(vc, c - 1))
  }

  /** Reference: every cell of the grid. */
  function TerrainIndices(kind: Primitive, vc: int): seq<int>
  {
    CellList(kind, vc, Side(vc) * Side(vc))
  }

  /** The vertex in column x of row z: the grid fraction scaled by the
      dimension, less the integer half of the dimension (`w / 2` is an int
      division in the source). */
  function GridVertex(dimension: int, vc: int, y: real, z: int, x: int): Vec3
    requires vc > 0
  {
    var half := TruncDiv(dimension, 2) as real;
    Vec3(x as real / vc as real * dimension as real - half, y, z as real / vc as real * dimension as real - half)
  }

  /** Reference: the first n vertices, vertex k in row k / vc and column
      k % vc. */
  function Vertices(dimension: int, vc: int, y: real, n: nat): seq<Vec3>
    requires vc > 0 || n == 0
  {
    seq(n, k requires 0 <= k < n => GridVertex(dimension, vc, y, k / vc, k % vc))
  }

  function Ups(n: nat): seq<Vec3>
  {
    seq(n, _ => Up)
  }

  /** Cells emitted once the walk has reached column x of row z. */
  function Done(vc: int, z: int, x: int): nat
    requires 0 <= z && 0 <= x
  {
    var s := Side(vc);
    if z < s then z * s + Min(x, s) else s * s
  }

  /** Cell z·s + x is the one at row z, column x. */
  lemma CellVertexAt(vc: int, z: nat, x: nat)
    requires x < Side(vc)
    ensures CellVertex(vc, z * Side(vc) + x) == z * vc + x
  {
    DivModOf(Side(vc), z, x);
  }

  /** The vertex list grows by the vertex at (z, x). */
  lemma VerticesSnoc(dimension: int, vc: int, y: real, z: nat, x: nat)
    requires x < vc
    ensures Vertices(dimension, vc, y, z * vc + x + 1)
         == Vertices(dimension, vc, y, z * vc + x) + [GridVertex(dimension, vc, y, z, x)]
  {
    DivModOf(vc, z, x);
    var a := Vertices(dimension, vc, y, z * vc + x + 1);
    var b := Vertices(dimension, vc, y, z * vc + x) + [GridVertex(dimension, vc, y, z, x)];
    assert |a| == |b|;
    forall k | 0 <= k < |a|
      ensures a[k] == b[k]
    {
    }
  }

  /** The test the source makes at vertex i = z·vc + x: not the last of its
      row and not in the last row. */
  lemma EmitTest(vc: int, z: nat, x: nat)
    requires x < vc
    ensures (TruncRem(z * vc + x + 1, vc) != 0 && z + 1 < vc) <==> (x < Side(vc) && z < Side(vc))
  {
    if x + 1 < vc {
      DivModOf(vc, z, x + 1);
    } else {
      DivModOf(vc, z + 1, 0);
      assert z * vc + x + 1 == vc * (z + 1) + 0;
    }
  }

  /** `generateTerrain` and `generateTerrainTriangleMesh`: the nested walk
      over all vertices, appending to `data`.  It appends the grid vertices
      and as many up normals, and exactly the reference cells; `count` is
      the total number of indices held afterwards. */
  method GenerateGrid(data: MeshData, dimension: int, vc: int, y: real, kind: Primitive) returns (r: MeshData, count: int)
    ensures r.positions == data.positions + Vertices(dimension, vc, y, GridCount(vc))
    ensures r.normals == data.normals + Ups(GridCount(vc))
    ensures r.uvs == data.uvs
    ensures r.indices == data.indices + TerrainIndices(kind, vc)
    ensures count == |r.indices|
  {
    var pos, nor, ind := data.positions, data.normals, data.indices;
    var z := 0;
    while z < vc
      invariant 0 <= z && (vc > 0 ==> z <= vc)
      invariant vc > 0 || z == 0
      invariant pos == data.positions + Vertices(dimension, vc, y, z * vc)
      invariant nor == data.normals + Ups(z * vc)
      invariant ind == data.indices + CellList(kind, vc, Done(vc, z, 0))
    {
      pos, nor, ind := GenerateRow(data, dimension, vc, y, kind, z, pos, nor, ind);
      assert z * vc + vc == (z + 1) * vc;
      assert z < Side(vc) ==> z * Side(vc) + Side(vc) == (z + 1) * Side(vc);
      z := z + 1;
    }
    assert z * vc == GridCount(vc);
    assert Done(vc, z, 0) == Side(vc) * Side(vc);
    r := MeshData(pos, nor, data.uvs, ind);
    count := |ind|;
  }

  /** One pass of the inner loop: row z, with the counter `i` running from
      z·vc. */
  method GenerateRow(data: MeshData, dimension: int, vc: int, y: real, kind: Primitive, z: nat,
                     pos0: seq<Vec3>, nor0: seq<Vec3>, ind0: seq<int>)
    returns (pos: seq<Vec3>, nor: seq<Vec3>, ind: seq<int>)
    requires z < vc
    requires pos0 == data.positions + Vertices(dimension, vc, y, z * vc)
    requires nor0 == data.normals + Ups(z * vc)
    requires ind0 == data.indices + CellList(kind, vc, Done(vc, z, 0))
    ensures pos == data.positions + Vertices(dimension, vc, y, z * vc + vc)
    ensures nor == data.normals + Ups(z * vc + vc)
    ensures ind == data.indices + CellList(kind, vc, Done(vc, z, vc))
  {
    pos, nor, ind := pos0, nor0, ind0;
    var i := z * vc;
    var x := 0;
    while x < vc
      invariant 0 <= x <= vc
      invariant i == z * vc + x
      invariant pos == data.positions + Vertices(dimension, vc, y, i)
      invariant nor == data.normals + Ups(i)
      invariant ind == data.indices + CellList(kind, vc, Done(vc, z, x))
    {
      VerticesSnoc(dimension, vc, y, z, x);
      pos := pos + [GridVertex(dimension, vc, y, z, x)];
      assert Ups(i + 1) == Ups(i) + [Up];
      nor := nor + [Up];
      EmitTest(vc, z, x);
      if TruncRem(i + 1, vc) != 0 && z + 1 < vc {
        CellVertexAt(vc, z, x);
        ind := ind + CellIndices(kind, vc, i);
      }
      i := i + 1;
      x := x + 1;
    }
  }

  /** Reference shape: cell j occupies indices W·j .. W·j + W - 1. */
  lemma {:induction false} CellListAt(kind: Primitive, vc: int, c: nat, j: nat, t: nat)
    requires j < c && t < Width(kind)
    ensures |CellList(kind, vc, c)| == Width(kind) * c
    ensures CellList(kind, vc, c)[Width(kind) * j + t] == CellIndices(kind, vc, CellVertex(vc, j))[t]
  {
    CellListLength(kind, vc, c - 1);
    if j < c - 1 {
      CellListAt(kind, vc, c - 1, j, t);
    }
  }

  lemma {:induction false} CellListLength(kind: Primitive, vc: int, c: nat)
    ensures |CellList(kind, vc, c)| == Width(kind) * c
  {
    if c > 0 {
      CellListLength(kind, vc, c - 1);
    }
  }

  /** A grid of vc ≥ 1 vertices per side has (vc - 1)² cells: 4(vc - 1)²
      patch indices or 6(vc - 1)² triangle indices. */
  lemma TerrainIndexCount(kind: Primitive, vc: int)
    requires vc >= 1
    ensures |TerrainIndices(kind, vc)| == Width(kind) * (vc - 1) * (vc - 1)
  {
    CellListLength(kind, vc, Side(vc) * Side(vc));
  }

  /** The cell at row z, column x (both short of vc - 1) is the
      (z·(vc-1) + x)-th of the grid: its indices sit at that cell's slot. */
  lemma TerrainCellAt(kind: Primitive, vc: int, z: nat, x: nat, t: nat)
    requires z < Side(vc) && x < Side(vc) && t < Width(kind)
    ensures |TerrainIndices(kind, vc)| == Width(kind) * (Side(vc) * Side(vc))
    ensures Width(kind) * (z * Side(vc) + x) + t < Width(kind) * (Side(vc) * Side(vc))
    ensures TerrainIndices(kind, vc)[Width(kind) * (z * Side(vc) + x) + t] == CellIndices(kind, vc, z * vc + x)[t]
  {
    var s := Side(vc);
    var c := z * s + x;
    MulLess(s, z, s);
    assert c < s * s;
    MulLess(Width(kind), c, s * s);
    CellVertexAt(vc, z, x);
    CellListAt(kind, vc, s * s, c, t);
  }

  /** Every cell of the enumeration lies in the grid: its top-left vertex
      is in a row and a column short of the last. */
  lemma CellVertexInGrid(vc: int, c: nat)
    requires c < Side(vc) * Side(vc)
    ensures Side(vc) > 0
    ensures 0 <= c / Side(vc) < Side(vc) && 0 <= c % Side(vc) < Side(vc)
    ensures CellVertex(vc, c) == (c / Side(vc)) * vc + c % Side(vc)
  {
    var s := Side(vc);
    var z, x := c / s, c % s;
    assert c == s * z + x;
    if z >= s {
      MulLess(s, s - 1, z);
      assert false;
    }
  }

  /** The cell at row z, column x (both short of vc - 1) names vertices of
      the grid only. */
  lemma CellInRange(kind: Primitive, vc: int, z: nat, x: nat)
    requires z < Side(vc) && x < Side(vc)
    ensures AllBelow(CellIndices(kind, vc, z * vc + x), GridCount(vc))
  {
    var s := Side(vc);
    MulLess(vc, z, s);
    assert vc * s + vc == vc * vc;
    assert z * vc == vc * z;
  }

  lemma {:induction false} CellListInRange(kind: Primitive, vc: int, c: nat)
    requires c <= Side(vc) * Side(vc)
    ensures AllBelow(CellList(kind, vc, c), GridCount(vc))
  {
    if c > 0 {
      CellListInRange(kind, vc, c - 1);
      CellVertexInGrid(vc, c - 1);
      CellInRange(kind, vc, (c - 1) / Side(vc), (c - 1) % Side(vc));
      AllBelowAppend(CellList(kind, vc, c - 1), CellIndices(kind, vc, CellVertex(vc, c - 1)), GridCount(vc));
    }
  }

  /** Every index of the grid names one of its vc² vertices. */
  lemma TerrainInRange(kind: Primitive, vc: int)
    ensures AllBelow(TerrainIndices(kind, vc), GridCount(vc))
  {
    CellListInRange(kind, vc, Side(vc) * Side(vc));
  }

  /** The two triangles of a cell cover exactly the four corners of its
      patch and share the diagonal from i to i + vc + 1. */
  lemma TrianglesSplitPatch(vc: int, i: int)
    ensures (set k | 0 <= k < 6 :: CellIndices(Triangles, vc, i)[k])
         == (set k | 0 <= k < 4 :: CellIndices(Patch, vc, i)[k])
    ensures CellIndices(Triangles, vc, i)[0] == CellIndices(Triangles, vc, i)[5] == i
    ensures CellIndices(Triangles, vc, i)[2] == CellIndices(Triangles, vc, i)[3] == i + vc + 1
  {
    var t := CellIndices(Triangles, vc, i);
    var p := CellIndices(Patch, vc, i);
    var st := set k | 0 <= k < 6 :: t[k];
    var sp := set k | 0 <= k < 4 :: p[k];
    assert t[0] in st && t[1] in st && t[2] in st && t[4] in st;
    assert p[0] in sp && p[1] in sp && p[2] in sp && p[3] in sp;
    assert st == {i, i + 1, i + vc + 1, i + vc};
    assert sp == {i, i + 1, i + vc + 1, i + vc};
  }

  /** The terrain as built: its scale, its grid and `terrainCount`. */
  datatype Terrain = Terrain(scaleXZ: int, scaleY: real, data: MeshData, count: int)

  /** The height every vertex of the current terrain starts at (the height
      map displaces it in the shader). */
  const BaseHeight: real := -1000.0

  const EmptyMesh: MeshData := MeshData([], [], [], [])

  /** `generateTerrain(dimension, vertexCount)`: the patch grid. */
  method GenerateTerrain(data: MeshData, dimension: int, vc: int) returns (r: MeshData, count: int)
    ensures r.positions == data.positions + Vertices(dimension, vc, BaseHeight, GridCount(vc))
    ensures r.normals == data.normals + Ups(GridCount(vc))
    ensures r.indices == data.indices + TerrainIndices(Patch, vc)
    ensures r.uvs == data.uvs
    ensures count == |r.indices|
    ensures data == EmptyMesh ==> count == |TerrainIndices(Patch, vc)|
  {
    r, count := GenerateGrid(data, dimension, vc, BaseHeight, Patch);
  }

  /** `generateTerrainTriangleMesh(dimension, vertexCount)`: the same grid
      as two triangles per cell. */
  method GenerateTerrainTriangleMesh(data: MeshData, dimension: int, vc: int) returns (r: MeshData, count: int)
    ensures r.positions == data.positions + Vertices(dimension, vc, BaseHeight, GridCount(vc))
    ensures r.normals == data.normals + Ups(GridCount(vc))
    ensures r.indices == data.indices + TerrainIndices(Triangles, vc)
    ensures r.uvs == data.uvs
    ensures count == |r.indices|
    ensures data == EmptyMesh ==> count == |TerrainIndices(Triangles, vc)|
  {
    r, count := GenerateGrid(data, dimension, vc, BaseHeight, Triangles);
  }

  /** The constructor: triangles when the terrain is built for the shadow
      map, patches otherwise; `terrainCount` counts them. */
  method NewTerrain(dimension: int, vc: int, height: real, shadowMap: bool) returns (t: Terrain)
    ensures t.scaleXZ == dimension && t.scaleY == height
    ensures t.data.positions == Vertices(dimension, vc, BaseHeight, GridCount(vc))
    ensures shadowMap ==> t.data.indices == TerrainIndices(Triangles, vc)
    ensures !shadowMap ==> t.data.indices == TerrainIndices(Patch, vc)
    ensures t.count == |t.data.indices|
    ensures IndicesInRange(t.data)
  {
    var data: MeshData, count: int;
    if shadowMap {
      data, count := GenerateTerrainTriangleMesh(EmptyMesh, dimension, vc);
    } else {
      data, count := GenerateTerrain(EmptyMesh, dimension, vc);
    }
    TerrainInRange(if shadowMap then Triangles else Patch, vc);
    t := Terrain(dimension, height, data, count);
  }
}
