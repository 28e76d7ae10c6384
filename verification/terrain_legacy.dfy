/** The older revision of the terrain (`Terrain.cpp` at the top level):
    the same vertex walk, patches only, with every vertex at height 0 and
    a normal map loaded next to the height map. */
module LegacyTerrains {
  import opened Linear
  import opened Meshes
  import opened Terrains

  /** `generateTerrain(dimension, vertexCount)`: vc² vertices at height 0,
      vc² up normals and one patch per cell; `count` is the number of
      indices held afterwards. */
  method GenerateTerrain(data: MeshData, dimension: int, vc: int) returns (r: MeshData, count: int)
    ensures r.positions == data.positions + Vertices(dimension, vc, 0.0, GridCount(vc))
    ensures forall k :: |data.positions| <= k < |r.positions| ==> r.positions[k].y == 0.0
    ensures r.normals == data.normals + Ups(GridCount(vc))
    ensures r.indices == data.indices + TerrainIndices(Patch, vc)
    ensures count == |r.indices|
  {
    r, count := GenerateGrid(data, dimension, vc, 0.0, Patch);
  }

  /** The constructor always builds patches. */
  method NewTerrain(dimension: int, vc: int, height: real) returns (t: Terrain)
    ensures t.scaleXZ == dimension && t.scaleY == height
    ensures t.data.positions == Vertices(dimension, vc, 0.0, GridCount(vc))
    ensures t.data.indices == TerrainIndices(Patch, vc)
    ensures vc >= 1 ==> t.count == 4 * (vc - 1) * (vc - 1)
    ensures IndicesInRange(t.data)
  {
    var data, count := GenerateTerrain(EmptyMesh, dimension, vc);
    TerrainInRange(Patch, vc);
    if vc >= 1 {
      TerrainIndexCount(Patch, vc);
    }
    t := Terrain(dimension, height, data, count);
  }
}
