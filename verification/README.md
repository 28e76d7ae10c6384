# Sun 'n' Slaughter core, modelled in Dafny

This project models the game logic of the ECG_Solution game that sits between its
OpenGL, PhysX and Assimp calls, and proves properties of that model. The logic covered:

- **View-frustum culling.** `FrustumG` and `Plane`: building the six planes and sorting a
  bounding box into OUTSIDE, INTERSECT or INSIDE.
- **Scene-graph draw traversal.** `Geometry`, `Node`, and `Scene::draw` / `drawDepth`,
  including the shared draw counter.
- **Scene building.** `processNode` / `processMesh`: naming rules, registration of
  level-1 nodes, and the bounding-box corners.
- **Gameplay state.** The enemy (`Enemy`) and the player character (`Character`).
- **Mesh and terrain index generators.** The plane, cube, skybox, cylinder and sphere
  meshes, and both terrain revisions.
- **Poisson-disk sampler.** The sampler that places objects.
- **Small helpers.** The third-person camera, the lens flares, and three view-matrix
  readers from the utilities.

Floating-point values are modelled as reals.
- Functions the model cannot compute exactly become inputs: `tan`, `normalize`, sine and
  cosine, square roots, `rand`, and the physics controller's reported position.
- Matrices in the scene graph are words over symbolic factors. The product of two
  matrices is concatenation, and the identity is the empty word, so every statement
  about matrices holds for real 4×4 matrices as well.
- The draw counter and the sphere generator's unsigned indices wrap modulo 2^32 (`CInt.Wrap32`). The plane, cylinder and terrain indices are exact integers (see "## Left out").
- C++ integer `/` and `%` truncate toward zero (`CInt.TruncDiv`, `CInt.TruncRem`).

Modules: `Linear`, `CInt`, `Wrappers`, `Transforms` (support), `Frustum`,
`FrustumWinding`, `Geometries`, `Nodes`, `Scenes`, `SceneBuilder`, `Enemies`,
`Characters`, `Meshes`, `RoundMeshes`, `Terrains`, `LegacyTerrains`, `Poisson`,
`Cameras`, `Flares`, `ViewUtils`.

## Model

| member | source | states |
|---|---|---|
| Frustum.SetPoints | ECG_Solution/src/FrustumG.cpp:98-106 | the plane from three points has distance 0 at each of them; the fourth argument is ignored |
| Frustum.SetPointsDistance | ECG_Solution/src/FrustumG.cpp:94-106 | the distance of any point q is a positive multiple of n·(q − a) with n = (b − a) × (c − a), so the sign is that of the unnormalised plane |
| Frustum.SetCamInternals | ECG_Solution/src/FrustumG.cpp:3-15 | the near and far rectangles are similar: fh·nearD = nh·farD, fw·nh = fh·nw, and every width is its height times the aspect ratio |
| Frustum.SetCamDef | ECG_Solution/src/FrustumG.cpp:17-56 | the four near corners average to p − Z·nearD and the four far corners to p − Z·farD; each of the six planes passes through the corners it was built from |
| Frustum.BoxInFrustum | ECG_Solution/src/FrustumG.cpp:58-91 | the result is OUTSIDE iff some plane has every corner at negative distance, else INTERSECT iff some plane has a negative corner, else INSIDE, despite the loop's early exit; INSIDE whenever checking is off |
| Frustum.CullingDisabledIsInside | ECG_Solution/src/FrustumG.cpp:59-61 | with `doCheck` false every corner list is INSIDE |
| Frustum.ClassifyDependsOnCornerSet | ECG_Solution/src/FrustumG.cpp:68-84 | two corner lists holding the same set of points are classified alike, so reordering or duplicating corners changes nothing |
| Frustum.EmptyBoxIsOutside | ECG_Solution/src/FrustumG.cpp:63-84 | with checking on, an empty corner list is OUTSIDE |
| Frustum.ClassifyScaleInvariant | ECG_Solution/src/FrustumG.cpp:94-105 | scaling each plane by its own positive factor, as `normalize` does, never changes a classification |
| FrustumWinding.AxisPointsInside | ECG_Solution/src/FrustumG.cpp:17-56 | for unit orthogonal Y and Z, 0 < nearD < farD, tang > 0 and ratio > 0, every point p − Z·m with nearD < m < farD lies strictly inside all six planes |
| Geometries.MakeWired | ECG_Solution/src/Geometry.cpp:9-53 | the eight-argument constructor yields a non-empty, non-character geometry wired to the frustum and counter, keeping the model matrix, actor and box, with no children (identity transform assumed) |
| Geometries.MakeUnwired | ECG_Solution/src/Geometry.cpp:55-98 | the three-argument constructor yields a non-empty geometry without frustum or counter, keeping the model matrix, with no children (identity transform assumed) |
| Geometries.MakeEmpty | ECG_Solution/src/Geometry.cpp:100-103 | the matrix-only constructor yields an empty geometry, keeping the model matrix, with no children (identity transform assumed) |
| Geometries.ConstructorsDrawable | ECG_Solution/src/Geometry.cpp:116-131 | the wired geometry can be drawn; an empty one only when marked as a character; an unwired non-empty one never, because the draw would use the unset counter |
| Geometries.Draw | ECG_Solution/src/Geometry.cpp:116-141 | the counter grows (mod 2^32) by exactly the number of renders, and every render's matrix starts with the caller's matrix |
| Geometries.DrawIsVisible | ECG_Solution/src/Geometry.cpp:116-141 | the renders are the reachable geometries in pre-order (own mesh before children), each with matrix·transform·model accumulated, filtered by the gate "character or not OUTSIDE, and not empty" |
| Geometries.DrawCount | ECG_Solution/src/Geometry.cpp:119-139 | the counter after a draw is the start value plus the number of gated geometries reachable |
| Geometries.GatesAgree | ECG_Solution/src/Geometry.cpp:146 | the depth pass's `!= 0` test is the colour pass's `!= OUTSIDE` test |
| Geometries.DepthMirrorsColor | ECG_Solution/src/Geometry.cpp:143-168 | the depth overload issues the same renders and the same count as the colour overload |
| Geometries.ChildrenAlwaysVisited | ECG_Solution/src/Geometry.cpp:137-139 | everything a child would render appears in its parent's renders, whether or not the parent passed the gate |
| Geometries.CountIgnoresMatrix | ECG_Solution/src/Geometry.cpp:118-119 | the count does not depend on the matrix handed in |
| Geometries.MatricesDoNotAffectCount | ECG_Solution/src/Geometry.cpp:118-119 | the count does not depend on the model or transform matrices either: culling reads only the stored box |
| Geometries.EmptyDrawsOnlyChildren | ECG_Solution/src/Geometry.cpp:120 | an empty geometry renders nothing itself, only its children |
| Geometries.Transform | ECG_Solution/src/Geometry.cpp:170-173 | the transformation becomes the leftmost factor of the model matrix; nothing else changes |
| Geometries.SetTransformMatrix | ECG_Solution/src/Geometry.cpp:175-178 | the transform matrix is replaced; nothing else changes |
| Geometries.ResetModelMatrix | ECG_Solution/src/Geometry.cpp:180-183 | the model matrix becomes the identity; nothing else changes |
| Geometries.TransformTwice | ECG_Solution/src/Geometry.cpp:170-183 | transforming by A then B gives B·A·M, and a reset forgets every earlier transform |
| Geometries.AddChild | ECG_Solution/src/Geometry.cpp:185-189 | the child is appended last and returned; earlier children are unchanged |
| Geometries.UpdateBoundingBox | ECG_Solution/src/Geometry.h:93 | the delta is recorded after every earlier one; nothing else changes |
| Nodes.NewNode | ECG_Solution/src/Node.cpp:6-10 | a new node is enabled, unnamed, at angle 0 with a zero starting position, keeps the model matrix, and has no meshes or children (zero position and identity transform assumed) |
| Nodes.DrawNode | ECG_Solution/src/Node.cpp:16-29 | a disabled node renders nothing and leaves the counter as it was; otherwise the counter grows by the number of renders, all under the caller's matrix |
| Nodes.DrawNodeIsVisible | ECG_Solution/src/Node.cpp:16-29 | the renders are the node's own meshes in order, then its children's, all under matrix·T(position)·R_y(angle)·T(start)·transform·model, filtered by the gate, with disabled subtrees pruned |
| Nodes.DrawNodeCount | ECG_Solution/src/Node.cpp:16-29 | the counter grows by the number of gated geometries reachable through enabled nodes |
| Nodes.DepthMirrorsColorNode | ECG_Solution/src/Node.cpp:32-45 | `drawDepth` issues the same renders and count as `draw` |
| Nodes.DisabledChildPruned | ECG_Solution/src/Node.cpp:18-27 | disabling one child removes exactly that child's subtree from the renders, keeping everything before and after it |
| Nodes.Transform | ECG_Solution/src/Node.cpp:47-50 | the transformation becomes the leftmost factor of the model matrix; nothing else changes |
| Nodes.SetTransformMatrix | ECG_Solution/src/Node.cpp:52-55 | the transform matrix is replaced; nothing else changes |
| Nodes.ResetModelMatrix | ECG_Solution/src/Node.cpp:57-60 | the model matrix becomes the identity; nothing else changes |
| Nodes.TransformTwiceNode | ECG_Solution/src/Node.cpp:47-60 | transforming by A then B gives B·A·M, and a reset forgets both |
| Nodes.AddChild | ECG_Solution/src/Node.cpp:62-65 | the child is appended last; earlier children are unchanged |
| Nodes.AddMesh | ECG_Solution/src/Node.cpp:68-70 | the mesh is appended last; earlier meshes are unchanged |
| Nodes.Move | ECG_Solution/src/Node.cpp:72-75 | forward is added to z and strafeLeft to x; y and everything else stay |
| Nodes.MoveTwice | ECG_Solution/src/Node.cpp:72-75 | moves add up and commute |
| Nodes.SetPosition | ECG_Solution/src/Node.cpp:77-82 | the position is copied; nothing else changes |
| Nodes.SetThenGetPosition | ECG_Solution/src/Node.cpp:77-86 | `getPosition` returns what was set, and a later set overrides an earlier one |
| Nodes.Yaw | ECG_Solution/src/Node.cpp:88-90 | the angle is overwritten; nothing else changes |
| Nodes.YawOverwrites | ECG_Solution/src/Node.cpp:88-90 | yaw does not accumulate: the last call wins, and yawing to the current angle changes nothing |
| Nodes.GetChildWithName | ECG_Solution/src/Node.cpp:92-99 | returns the first immediate child with exactly that name, or nothing iff no immediate child has it |
| Scenes.EmptyScene | ECG_Solution/src/Scene.h:38-44 | a new scene's counter is 0 |
| Scenes.GetDrawnObjects | ECG_Solution/src/Scene.h:54-56 | returns the counter |
| Scenes.DepthSkipsMore | ECG_Solution/src/Scene.cpp:4-21 | every node the colour pass skips is skipped by the depth pass; the depth pass also skips other "cook_" nodes |
| Scenes.Draw | ECG_Solution/src/Scene.cpp:4-21 | the counter is reset, then counts the renders of the registered nodes that are not skipped; the node lists stay |
| Scenes.SceneDrawIsVisible | ECG_Solution/src/Scene.cpp:4-21 | a pass renders, in list order, every gated geometry reachable from the nodes it does not skip, and `getDrawnObjects` returns their number |
| Scenes.DrawResets | ECG_Solution/src/Scene.cpp:5-15 | the counter's old value never matters, so drawing twice counts the same as once |
| Scenes.SkippedNodeIgnored | ECG_Solution/src/Scene.cpp:7-17 | whatever a skipped node holds has no effect on a pass |
| Scenes.GetNodeWithName | ECG_Solution/src/Scene.cpp:281-288 | returns the first registered node with that name, or nothing iff none has it |
| Scenes.GetEnemyWithActor | ECG_Solution/src/Scene.cpp:294-301 | returns the first enemy owning that actor, or nothing iff none does |
| SceneBuilder.EnemyAndCookExclusive | ECG_Solution/src/Scene.cpp:54-69 | no name is both an enemy ("mob_") and a collider ("cook_") |
| SceneBuilder.Bounds | ECG_Solution/src/Scene.cpp:100-117 | the running min/max, seeded at ±300, bound every vertex on every axis; each is either the seed or some vertex's coordinate |
| SceneBuilder.BoxCorners | ECG_Solution/src/Scene.cpp:214-223 | eight corners in the fixed sign order +++, ++−, +−+, …, −−−, each coordinate the min or the max of its axis |
| SceneBuilder.BoxEnclosesVertices | ECG_Solution/src/Scene.cpp:162-223 | every bounded vertex lies between corner 7 and corner 0 on every axis |
| SceneBuilder.Middle | ECG_Solution/src/Scene.cpp:162 | the middle is halfway between min and max |
| SceneBuilder.MiddleOfCorners | ECG_Solution/src/Scene.cpp:211-223 | the enemy's starting offset −middle is minus the average of corners 0 and 7 |
| SceneBuilder.ProcessMesh | ECG_Solution/src/Scene.cpp:98-226 | a failed cook adds nothing; otherwise one geometry is appended, built from the mesh's box; an enemy mesh also moves the node to the spawn position and centres it |
| SceneBuilder.EnemyOf | ECG_Solution/src/Scene.cpp:54-57 | an enemy node starts with 50 of 50 hit points and damage 5 |
| SceneBuilder.Registration | ECG_Solution/src/Scene.cpp:82-87 | a node is registered iff it is at level 1 and holds at least one mesh |
| SceneBuilder.EnemyRegistration | ECG_Solution/src/Scene.cpp:82-87 | it is also registered as an enemy iff its name starts with "mob_" |
| SceneBuilder.RegisteredAreMeshHolders | ECG_Solution/src/Scene.cpp:82-92 | every registered node is a level-1 node that holds meshes |
| SceneBuilder.ProcessMeshes | ECG_Solution/src/Scene.cpp:77-80 | a non-collider node gets one geometry per mesh; none gets more |
| SceneBuilder.ProcessNode | ECG_Solution/src/Scene.cpp:48-95 | the node tree mirrors the import tree; the scaled load sets position and scale; the scene gains exactly the registrations of the level-1 nodes, in order |
| SceneBuilder.ProcessChildren | ECG_Solution/src/Scene.cpp:88-92 | one child per imported child, in order, each mirroring its import |
| SceneBuilder.LoadScene | ECG_Solution/src/Scene.cpp:24-34 | loading registers, in order, the root's children that hold meshes |
| SceneBuilder.LoadSceneScaled | ECG_Solution/src/Scene.cpp:36-46 | the same, with the root placed at the position and scaled |
| Enemies.NewEnemy | ECG_Solution/src/Enemy.cpp:4-9 | a new enemy has 50 of 50 hit points, damage 5 and angle 0 |
| Enemies.HasActor | ECG_Solution/src/Enemy.cpp:15-23 | true iff some mesh belongs to the actor |
| Enemies.ForwardDelta | ECG_Solution/src/Enemy.cpp:71-75 | the same delta goes to every mesh's bounding box |
| Enemies.Respawn | ECG_Solution/src/Enemy.cpp:110-122 | the enemy is placed where the controller reports, re-enabled and healed to full, and every mesh receives the displacement |
| Enemies.IsDead | ECG_Solution/src/Enemy.cpp:25-33 | true iff hp ≤ 0, in which case the enemy respawns |
| Enemies.IsDeadThenAlive | ECG_Solution/src/Enemy.cpp:25-33 | after a true answer, an immediate second call answers false |
| Enemies.HitWithDamage | ECG_Solution/src/Enemy.cpp:35-39 | above zero the hp drops and nothing else changes; otherwise the enemy respawns enabled and the result is the full hp |
| Enemies.Move2 | ECG_Solution/src/Enemy.cpp:77-87 | the enemy takes the reported position and every mesh receives new − old |
| Enemies.Move | ECG_Solution/src/Enemy.cpp:61-69 | the enemy takes the reported position; the meshes receive nothing |
| Enemies.UpdateRotation | ECG_Solution/src/Enemy.cpp:89-93 | the angle is a whole number congruent to trunc(90 + value) mod 360, in [0, 360) when 90 + value ≥ 0 and in (−360, 0] when trunc(90 + value) < 0, as C++'s `%` keeps the dividend's sign; this pins it to the source's value |
| Enemies.UpdateRotationNegative | ECG_Solution/src/Enemy.cpp:90 | value −100 gives the angle −10, not the Euclidean 350 |
| Enemies.UpdateCharacter | ECG_Solution/src/Enemy.cpp:95-98 | sets the angle to updateRotation(30·dt), that is trunc(90 + 30·dt) rem 360 (not added to the current angle), and takes the reported position without forwarding a delta |
| Enemies.Chase | ECG_Solution/src/Enemy.cpp:100-108 | rotates toward the heading and takes the reported position |
| Enemies.ForwardedSumIsDisplacement | ECG_Solution/src/Enemy.cpp:71-122 | over any run of move2, respawn, hit and chase calls, the deltas each mesh receives add up to the net displacement |
| Enemies.MoveLeavesBoxStale | ECG_Solution/src/Enemy.cpp:61-69 | `move` changes the position without telling the meshes, so their boxes fall behind |
| Characters.NewCharacter | ECG_Solution/src/Scene.h:89-96 | a character starts with 100 hit points and heading 0; the constructor's `move(0, 0, 0)` places every registered node and the character at the controller's reported position and gives the camera that position; the node list keeps its length and nothing else of the nodes changes |
| Characters.InflictDamage | ECG_Solution/src/Scene.h:114-121 | hp becomes max(0, hp − damage) and is returned; it is never negative afterwards |
| Characters.InflictDamageTwice | ECG_Solution/src/Scene.h:114-121 | after any hit, a non-negative hit acts like one hit by the sum |
| Characters.NegativeDamageHealsPastStart | ECG_Solution/src/Scene.h:114-121 | there is no upper clamp: damage −1 raises hp above 100 |
| Characters.OrderIsValid | ECG_Solution/src/Scene.h:78-94 | the order table {2, 0, 2, 1} indexes only the three keyframe buffers |
| Characters.Animate | ECG_Solution/src/Scene.cpp:365-377 | for step ≥ 0 the blend factor is (step mod 15)/15 in [0, 14/15], and input and output are order[(step/15) mod 4] and order[(step/15 + 1) mod 4], both valid keyframes |
| Characters.BlocksChain | ECG_Solution/src/Scene.cpp:369-372 | block k's output keyframe is block k+1's input |
| Characters.BlockStartsAtKey | ECG_Solution/src/Scene.cpp:369 | each block starts with blend factor 0 |
| Characters.AnimationPeriodic | ECG_Solution/src/Scene.cpp:369-372 | the animation repeats every 60 steps |
| Characters.NegativeStepHasNoFrame | ECG_Solution/src/Scene.cpp:371 | a negative step would index the order table at a negative position |
| Characters.SetPosition | ECG_Solution/src/Scene.h:125-130 | the position is copied; nothing else changes |
| Characters.UpdateRotation | ECG_Solution/src/Scene.cpp:274-279 | the character's angle and every node's angle become the argument; nothing else changes |
| Characters.UpdateRotationOverwrites | ECG_Solution/src/Scene.cpp:274-279 | the last rotation wins |
| Characters.Relocate | ECG_Solution/src/Scene.cpp:264-272 | every node and the character take the reported controller position, and the camera's `setPosition` receives it; hp, heading and everything else of the nodes stay |
| Characters.RelocateAligns | ECG_Solution/src/Scene.cpp:264-272 | after a relocation every node sits where the character is, and negating the camera's position gives the character's position |
| Meshes.PlaneMeshCounts | ECG_Solution/src/Mesh.cpp:108-133 | d² positions and up-normals and 6·(d² − 1) indices |
| Meshes.PlaneMeshOutOfRange | ECG_Solution/src/Mesh.cpp:121-128 | as written, for every d ≥ 2, the index d² is emitted although there are only d² vertices |
| Meshes.PlaneMeshCorrectedCounts | ECG_Solution/src/Mesh.cpp:108-133 | with the guard corrected, 6·(d − 1)² indices |
| Meshes.PlaneMeshCorrectedInRange | ECG_Solution/src/Mesh.cpp:121-128 | with the guard corrected, every index names a vertex |
| Meshes.QuadIsGridSquare | ECG_Solution/src/Mesh.cpp:117-128 | the six indices of a cell name the four grid points (w, h), (w, h+1), (w+1, h), (w+1, h+1) |
| Meshes.PlanePositionAt | ECG_Solution/src/Mesh.cpp:112-116 | vertex d·w + h is grid point (w, h) |
| Meshes.CreateCubeMesh | ECG_Solution/src/Mesh.cpp:134-239 | 24 positions, normals and uvs, and 36 indices |
| Meshes.CubeFaceIndices | ECG_Solution/src/Mesh.cpp:134-239 | face f's six indices are exactly its own four vertices 4f … 4f+3 |
| Meshes.CubeIndicesInRange | ECG_Solution/src/Mesh.cpp:134-239 | every cube index names a vertex |
| Meshes.CubeVerticesOnFaces | ECG_Solution/src/Mesh.cpp:134-239 | every normal is a unit vector, and every vertex lies on its face's plane at half the extent |
| Meshes.CreateSkyboxMesh | ECG_Solution/src/Mesh.cpp:242-364 | 36 positions and 36 indices, with no normals or uvs |
| Meshes.SkyboxIndicesInRange | ECG_Solution/src/Mesh.cpp:242-364 | every index is below 36 and the largest is 34: index 14 repeats and 35 is never used |
| Meshes.SkyboxTrianglesOnFaces | ECG_Solution/src/Mesh.cpp:242-364 | every skybox vertex lies on the plane of its face |
| Meshes.Transform | ECG_Solution/src/Mesh.cpp:98-101 | the transformation becomes the leftmost factor of the model matrix; the data stay |
| Meshes.ResetModelMatrix | ECG_Solution/src/Mesh.cpp:103-106 | the model matrix becomes the identity; the data stay |
| Meshes.MeshTransformTwice | ECG_Solution/src/Mesh.cpp:98-106 | two transforms compose as one by B·A, and a reset forgets them |
| RoundMeshes.WrapPattern | ECG_Solution/src/Mesh.cpp:410 | `j == n−1 ? 0 : j+1` is (j + 1) mod n |
| RoundMeshes.CylinderShape | ECG_Solution/src/Mesh.cpp:367-428 | 2 + 4s positions, normals and uvs, 12s indices, and every index names a vertex |
| RoundMeshes.NeighbourIndices | ECG_Solution/src/Mesh.cpp:405-423 | segment i's indices join the poles with its own ring vertices and those of segment (i + 1) mod s |
| RoundMeshes.CylinderBottomCapFlat | ECG_Solution/src/Mesh.cpp:405-410 | each bottom-cap triangle lies in the plane y = −height/2 |
| RoundMeshes.CylinderTopCapFlat | ECG_Solution/src/Mesh.cpp:411-415 | each top-cap triangle lies in the plane y = height/2 |
| RoundMeshes.SphereCounts | ECG_Solution/src/Mesh.cpp:430-485 | for lon ≥ 1 and lat ≥ 2: 2 + (lat − 1)·lon positions, normals and uvs, and 6·lon·(lat − 1) indices |
| RoundMeshes.SphereInRange | ECG_Solution/src/Mesh.cpp:430-485 | for lon ≥ 1 and lat ≥ 2 every index names a vertex |
| RoundMeshes.SphereWithoutRings | ECG_Solution/src/Mesh.cpp:430-485 | with no longitude segments, or at most one latitude segment, only the two poles exist; no longitude segments give no indices, and no latitude segments make lat − 2 wrap so indices near 2^32 are emitted |
| RoundMeshes.SphereSingleLatitudeWraps | ECG_Solution/src/Mesh.cpp:440-452 | with lat = 1 the unsigned lat − 2 wraps: only the two poles exist, but indices near 2^32 are emitted |
| Terrains.GenerateGrid | ECG_Solution/src/Terrain/Terrain.cpp:80-115 | appends vc² grid vertices in row order and vc² up-normals; the index list gains exactly the reference cell list; the count is the number of indices held |
| Terrains.GenerateRow | ECG_Solution/src/Terrain/Terrain.cpp:90-111 | one row z appends vertices z·vc … z·vc + vc − 1, keeping the vertex counter at i = z·vc + x |
| Terrains.EmitTest | ECG_Solution/src/Terrain/Terrain.cpp:104 | the emission test `(i + 1) % vc != 0 && z + 1 < vc` holds exactly for the cells with x < vc − 1 and z < vc − 1 |
| Terrains.TerrainIndexCount | ECG_Solution/src/Terrain/Terrain.cpp:62-109 | 4·(vc − 1)² patch indices or 6·(vc − 1)² triangle indices |
| Terrains.TerrainCellAt | ECG_Solution/src/Terrain/Terrain.cpp:62-71 | cell (z, x) occupies slot z·(vc − 1) + x and emits the indices of vertex z·vc + x |
| Terrains.TerrainInRange | ECG_Solution/src/Terrain/Terrain.cpp:62-109 | every terrain index is below vc² |
| Terrains.TrianglesSplitPatch | ECG_Solution/src/Terrain/Terrain.cpp:62-109 | a cell's two triangles use the same four corners as its patch and share the diagonal i, i + vc + 1 |
| Terrains.GenerateTerrain | ECG_Solution/src/Terrain/Terrain.cpp:80-115 | patch grid at height −1000; the count is the number of indices held, 4·(vc − 1)² on fresh data |
| Terrains.GenerateTerrainTriangleMesh | ECG_Solution/src/Terrain/Terrain.cpp:38-78 | triangle grid at height −1000; the count is the number of indices held, 6·(vc − 1)² on fresh data |
| Terrains.NewTerrain | ECG_Solution/src/Terrain/Terrain.cpp:4-15 | triangles iff built for the shadow map, patches otherwise; the count matches and every index names a vertex |
| LegacyTerrains.GenerateTerrain | ECG_Solution/src/Terrain.cpp:29-64 | vc² vertices all at height 0, vc² up-normals, the patch cell list, and the count of indices held |
| LegacyTerrains.NewTerrain | ECG_Solution/src/Terrain.cpp:5-20 | patches always: 4·(vc − 1)² indices, all naming vertices |
| Poisson.NewGrid | ECG_Solution/src/PoissonDiskSampling.cpp:26 | a width/cell by height/cell grid, every cell unused (−1, −1) |
| Poisson.ImageToGrid | ECG_Solution/src/PoissonDiskSampling.cpp:60-64 | the cell of a point, less one per axis and clamped at 0: never negative |
| Poisson.ImageToGridInGrid | ECG_Solution/src/PoissonDiskSampling.cpp:26-64 | for a valid point the cell lies inside the grid |
| Poisson.Store | ECG_Solution/src/PoissonDiskSampling.cpp:50 | storing changes exactly the point's cell |
| Poisson.NeighbourWindow | ECG_Solution/src/PoissonDiskSampling.cpp:103-106 | the half-open window [max(0, g − 2), min(g + 2, size − 1)) stays inside the grid, never reaches the last row or column, and spans at most 4 per axis |
| Poisson.GetNeighbours | ECG_Solution/src/PoissonDiskSampling.cpp:101-118 | returns exactly the window's cells: at most 16, every one from the window, every window cell present |
| Poisson.InNeighbourhood | ECG_Solution/src/PoissonDiskSampling.cpp:88-99 | true iff some used cell in the window is closer than minDist (squared distances compared) |
| Poisson.FirstPoint | ECG_Solution/src/PoissonDiskSampling.cpp:31 | the first point (width/2, height/2) is valid |
| Poisson.GeneratePoints | ECG_Solution/src/PoissonDiskSampling.cpp:21-58 | the spawn list is exactly the reference `Passes` from the first point (which point is drawn, which candidates are kept); it starts with the first point; every point is valid and, when accepted, was not near any point already stored; with the corrected lookup all points are pairwise at least minDist apart |
| Poisson.GrowFrom | ECG_Solution/src/PoissonDiskSampling.cpp:43-52 | the points appended are exactly the reference `Grown`: candidate k of `count` is appended, in order, iff it is valid and no stored point is near it; the acceptance invariant is kept |
| Poisson.RunPasses | ECG_Solution/src/PoissonDiskSampling.cpp:38-53 | the outer loop ends with the spawn list of the reference `Passes`: one pass per drawn process point until the list is empty |
| Poisson.OnePass | ECG_Solution/src/PoissonDiskSampling.cpp:40-52 | one pass is the reference `Pass`: the point at rand() mod size leaves the process list, and the points kept around it join both lists |
| Poisson.Consider | ECG_Solution/src/PoissonDiskSampling.cpp:45-51 | one candidate step of `GrowFrom` agrees with one step of `Grown`: appended iff valid and the lookup finds nothing near |
| Poisson.GrownInvariant | ECG_Solution/src/PoissonDiskSampling.cpp:43-52 | every reference pass from a list that keeps the acceptance invariant keeps it |
| Poisson.PassesInvariant | ECG_Solution/src/PoissonDiskSampling.cpp:38-53 | any number of reference passes keeps the acceptance invariant |
| Poisson.PassesExtends | ECG_Solution/src/PoissonDiskSampling.cpp:38-53 | the passes only append to the spawn list, so the first point stays first |
| Poisson.Generated | ECG_Solution/src/PoissonDiskSampling.cpp:31-53 | the reference run from the first point ends with the first point first, only valid accepted points, and, corrected, points pairwise apart |
| Poisson.Accept | ECG_Solution/src/PoissonDiskSampling.cpp:46-50 | accepting a valid point that is not near keeps the invariant |
| Poisson.CloseIsNear | ECG_Solution/src/PoissonDiskSampling.cpp:88-118 | with the corrected lookup, a stored point closer than minDist to a candidate is always found |
| Poisson.SameCellIsClose | ECG_Solution/src/PoissonDiskSampling.cpp:23 | with cell size minDist/√2, two points in one cell are closer than minDist |
| Poisson.AsWrittenAcceptsClosePair | ECG_Solution/src/PoissonDiskSampling.cpp:101-118 | as written, on a 10×10 field with minDist √2, the candidates (6, 6.05) and (6.5, 4.9), both within [minDist, 2·minDist] of the first point (5, 5) as `generateRandomPointAround` produces them, are both accepted, though they are about 1.25 apart |
| Poisson.NewPoissonSampler | ECG_Solution/src/PoissonDiskSampling.cpp:4-19 | the constructor stores its settings and the generated spawn list (the reference `Passes`), which `getPoints` returns, first point first |
| Cameras.NewCamera | ECG_Solution/src/PlayerCamera.cpp:5-9 | yaw and pitch 0 and zoom −6; the cached matrices agree with them |
| Cameras.Rotate | ECG_Solution/src/PlayerCamera.cpp:29-41 | yaw grows by x with no wrap, pitch becomes clamp(pitch + y, −90, 90), and the rotation matrix is rebuilt from both |
| Cameras.ClampCases | ECG_Solution/src/PlayerCamera.cpp:34-39 | the clamp leaves pitches in [−90, 90] alone and pins the others to the limit they crossed |
| Cameras.RotateSameDirection | ECG_Solution/src/PlayerCamera.cpp:29-39 | two turns in the same vertical direction equal one turn by the sum |
| Cameras.RotateNotReversible | ECG_Solution/src/PlayerCamera.cpp:34-39 | turning up 120° and back down 120° from level ends at −30°, not at 0° |
| Cameras.Rotations | ECG_Solution/src/PlayerCamera.cpp:29-41 | after any sequence of rotations the pitch is within ±90° and the matrices are consistent |
| Cameras.GetYaw | ECG_Solution/src/PlayerCamera.cpp:56-58 | the yaw reported is the one the rotation matrix was built from |
| Cameras.YawAccumulates | ECG_Solution/src/PlayerCamera.cpp:30 | `getYaw` after a sequence of rotations is the start yaw plus the sum of the horizontal turns |
| Cameras.Move | ECG_Solution/src/PlayerCamera.cpp:44-47 | forward is added to z and strafeLeft to x; everything else stays |
| Cameras.MoveComposes | ECG_Solution/src/PlayerCamera.cpp:44-47 | moves add up and commute |
| Cameras.SetPosition | ECG_Solution/src/PlayerCamera.cpp:49-54 | the stored position is the negated controller position; nothing else changes |
| Cameras.GetPosition | ECG_Solution/src/PlayerCamera.cpp:14-16 | returns the stored position |
| Cameras.SetPositionRoundTrip | ECG_Solution/src/PlayerCamera.cpp:49-54 | negating the stored position gives back the controller position, and a later set overrides earlier sets and moves |
| Cameras.UpdateZoom | ECG_Solution/src/PlayerCamera.cpp:22-27 | the zoom becomes the argument; the same zoom changes nothing |
| Cameras.UpdateZoomUniform | ECG_Solution/src/PlayerCamera.cpp:22-27 | skipping the rebuild for an unchanged zoom cannot be observed, so a repeated update changes nothing |
| Flares.CalcFlarePos | ECG_Solution/src/Flare/FlareManager.cpp:10-16 | flare i moves to sun + sunToCenter·(i·spacing); count, order, textures and scales stay |
| Flares.FlareLayout | ECG_Solution/src/Flare/FlareManager.cpp:10-16 | flare 0 sits on the sun, consecutive flares are one spacing step apart, and the flare at offset 1 sits on the screen centre |
| Flares.ConvertToScreenSpace | ECG_Solution/src/Flare/FlareManager.cpp:18-26 | (0, 0, w) when w ≤ 0; otherwise x and y are the clip coordinates divided by w (multiplying back by w recovers them) |
| Flares.Render | ECG_Solution/src/Flare/FlareManager.cpp:28-39 | flares are placed and drawn iff w > 0 and the squared sun-to-centre distance is below 1, with brightness 1 − distance in (0, 1]; otherwise nothing changes |
| Flares.UnitLength | ECG_Solution/src/Flare/FlareManager.cpp:34-35 | 1 − length > 0 exactly when the squared length is below 1 |
| ViewUtils.GetLookVector | ECG_Solution/src/Utils.cpp:243-245 | (m[0][2], m[1][2], m[2][2]): row 2 of the upper 3×3 block |
| ViewUtils.GetUpVector | ECG_Solution/src/Utils.cpp:247-249 | (m[0][1], m[1][1], m[2][1]): row 1 of the upper 3×3 block |
| ViewUtils.GetWorldPosition | ECG_Solution/src/Utils.cpp:251-257 | −(Rᵀ·d) for the upper 3×3 block R and translation column d |
| ViewUtils.AxesRoundTrip | ECG_Solution/src/Utils.cpp:243-249 | for a view matrix whose rows are the camera's side, up and backward axes, the look vector is the backward axis and the up vector is the up axis |
| ViewUtils.WorldPositionRoundTrip | ECG_Solution/src/Utils.cpp:251-257 | if RᵀR = I and d = −R·eye, `getWorldPosition` returns the eye |
| ViewUtils.WorldPositionWithoutRotation | ECG_Solution/src/Utils.cpp:251-257 | with R = I the result is −d |

## Left out

- OpenGL, GLEW, GLFW, PhysX and Assimp work is not modelled: buffer creation, draw calls, shaders, textures, collider cooking and file reading. A render is an event recorded with its matrix. An imported scene is a tree of named nodes holding vertex lists, with a flag for whether cooking succeeded.
- `tan`, `normalize`, sine, cosine, `glm::length` and `glm::distance` are not computed. `tan` and the normalising factor are inputs, with the factor assumed positive. Lengths are compared through their squares, and the flare brightness takes the length as an input.
- Float rounding is not modelled. All coordinates are reals, so no float-exact equality is claimed about the real program.
- `Geometry::updateBoundingBox` has only a declaration in this revision. The model records the deltas it receives, not how they move the corners.
- The physics controller is an input. Wherever the source moves the controller and reads it back, the position read back is a parameter.
- Enemies.Chase: the heading is given directly. The `atan2` of the normalised direction is not computed.
- Rand, srand and `generateRandomPointAround` are not modelled; the choices are inputs (`pick`, `around`).
- Poisson.GeneratePoints: runs for at most `fuel` passes of the outer loop, so termination of the source's loop is not claimed.
- Poisson.GeneratePoints: requires a grid with at least one column and row (`Fits`). With an empty grid the source's first store writes outside it.
- Poisson.Store: the source writes unchecked. The model makes an out-of-range store a no-op; the lemmas show every store of a valid point is in range.
- Nodes.NewNode: `_position` and `_transformMatrix` have no initialiser (Node.h:19, 22) and the constructor does not set them. The model assumes the zero vector and the identity, which glm's default constructors give only in some versions and configurations.
- Geometries.MakeWired: `_transformMatrix` has no initialiser (Geometry.h:57). The model assumes the identity, as glm's default constructor gives only in some versions and configurations.
- Geometries.MakeUnwired: the same assumption of an identity `_transformMatrix` as for MakeWired.
- Geometries.MakeEmpty: the same assumption of an identity `_transformMatrix` as for MakeWired.
- SceneBuilder.EnemyRegistration: `nodes` and `enemies` share one `shared_ptr` per enemy in the source. The model stores value copies, so it states only that they are equal when built. A later change to an enemy found through `getEnemyWithActor` does not reach the node list the scene draws.
- Characters.Relocate: the camera is held by value inside the character, not shared with the game loop through a pointer.
- `Character::move` computes a controller step from the heading with sine and cosine and hands it to the physics controller; its tail after the controller reports back is Characters.Relocate. `Character::setAngle` and `init` are not modelled.
- Cameras.NewCamera: the projection matrix, and the position's initial value (which depends on the glm version), are left out. The start position is a parameter.
- Cameras.Rotate: the rotation matrix is recorded by the angles it was built from, not as the sines and cosines glm computes.
- `getViewProjectionMatrix` and `getModel` of the camera are left out. They are matrix products over the trigonometric rotation.
- `GuiTexture::setPosition` has no body in this revision. The flare model takes it to store the position, as its name and the getter suggest.
- The flare renderer call (`renderFlares`) is not modelled, beyond the brightness and sun coordinates it receives.
- Integer overflow is not modelled in `createPlaneMesh`, in `createCylinderMesh`'s unsigned indices (2 + 4s stays far below 2^32 for any segment count that fits in memory), in the terrain's vc², or in hp arithmetic. Plain `int` arithmetic is exact here.
- The sphere generator's unsigned indices are modelled modulo 2^32. Its range lemmas assume 2 + (lat − 1)·lon < 2^32.
- Cylinder and sphere vertex positions come from oracle functions for the trigonometric circle. Only the index structure and the cap planes are proved.
- The terrain's height map, textures and the shadow-map shader are not modelled. Vertex x and z are exact grid coordinates.
- Header/body drift between revisions is not modelled. `Enemy.h` declares fields the .cpp does not use, `FlareManager.h:15` declares a three-argument `render`, `PoissonDiskSampling.h` differs from its .cpp, and `Scene.h:66` declares an extra `processMesh` parameter. The .cpp bodies are what is modelled.
- `Texture::loadTexture` computes an aspect ratio with integer division (`Texture.cpp:12`). It is outside the modelled core.
- The frame loop, input callbacks, HUD, particles, light mapping and materials in `Main.cpp` and elsewhere are not modelled.

## Findings

| source | as written | input that shows it | evidently intended | confidence | as-written member | corrected member |
|---|---|---|---|---|---|---|
| ECG_Solution/src/Mesh.cpp:121-128 | the cell guard `width < d−1 \|\| height < d−1` also lets the cells of the last row and column through | d = 2: the cell width = 1, height = 0 emits index d·width + height + d = 4, with only 4 vertices | `&&`: a quad only for cells with both coordinates below d − 1 | high, not executed | Meshes.PlaneMeshOutOfRange | Meshes.PlaneMeshCorrectedInRange |
| ECG_Solution/src/PoissonDiskSampling.cpp:60-64 | `imageToGrid` shifts the cell by −1, and `getNeighbours` (101-118) scans the half-open window [g−2, g+2), which is capped at size − 1 | 10×10 field, minDist √2 (cell size 1), first point (5, 5): the candidates (6, 6.05) and (6.5, 4.9) around it lie at squared distances 2.1025 and 2.26 from it; (6, 6.05) is filed in cell (5, 5), and the window of (6.5, 4.9), cell (5, 3), covers rows 1 to 4 only, so both are accepted although they are √1.5725 ≈ 1.25 < √2 apart | store and look up the point's own cell, and scan the closed window [g−2, g+2] up to the last cell, so that no accepted pair is closer than minDist | medium, not executed | Poisson.AsWrittenAcceptsClosePair | Poisson.GeneratePoints |
