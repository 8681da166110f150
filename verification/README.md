# Ceres voxel core in Dafny

Ceres is a voxel engine: a world of voxels stored in 32 × 32 × 32 chunks. This project models the engine's core:

- **Voxels** (`Voxels`): types, classification, positions and the six faces with their offsets and normals.
- **Chunk positions** (`ChunkPositions`): chunk arithmetic and the floor-division split of a global voxel coordinate into a chunk and a local coordinate.
- **Chunks** (`ChunkGrid`, `Chunks`):
  - the flat voxel array and its index arithmetic;
  - reads that cross into a neighbour;
  - the dirty, empty and modified flags;
  - mesh generation with face culling.
- **The chunk manager** (`ChunkManagers`):
  - loaded chunks keyed by position;
  - creation on demand with two-way neighbour wiring, and unloading that cuts the back-links;
  - global voxel reads and writes that mark the chunks across an edge dirty;
  - the dirty, loaded and statistics queries.
- **The chunk mesh** (`ChunkMeshes`): buffers of 11 floats per vertex and 6 indices per quad, and a pure specification of the faces `GenerateMesh` emits, in loop order.
- **The chunk renderer** (`ChunkRenderers`):
  - a cache from chunk position to uploaded mesh;
  - rebuilding of dirty chunks;
  - release of graphics handles;
  - the per-frame counters.
- **The voxel mesh builder** (`VoxelMeshBuilders`): culling between two voxels and a builder of 9-float vertices.
- **The cube mesh** (`CubeMeshes`): the fixed 24-vertex, 36-index cube and its flattening into 8 floats per vertex.

Go's `int32` coordinates are unbounded `int`s, except where wrap-around matters (see Findings). `float32` vertex data is `real`. Positions and normals agree with the `float32` values for coordinates of magnitude up to 2^24. Colours are the decimal literals of the source (0.55, say), not their nearest `float32` values.

Objects that the source updates in place are classes:

- `Chunk`: a fixed `array` of voxels;
- `ChunkMesh` and `VoxelMeshBuilder`: sequences that their methods reassign;
- `ChunkManager` and `ChunkRenderer`: maps.

Each loop of the source is a method whose loop invariants tie the state to a specification function. For example, `Chunk.GenerateMesh` leaves a mesh that holds exactly `GeneratedFaces` of what the chunk sees (`Chunk.View`).

A neighbour pointer is the neighbour's position. It is resolved through the manager's map, passed as `world`.

## Model

| member | source | states |
|---|---|---|
| Voxels.Voxel.GetName | pkg/voxel/voxel.go:56-81 | the name is "Unknown" exactly for the byte values outside the ten named types, and "Air" exactly for air |
| Voxels.ClassificationTable | pkg/voxel/voxel.go:36-53 | solid iff not air; opaque iff not transparent; transparent exactly for Air, Water and Glass; so opaque implies solid and air is transparent |
| Voxels.NamesAreDistinct | pkg/voxel/voxel.go:56-81 | two different named types never share a name |
| Voxels.VoxelPosition.Distance | pkg/voxel/voxel.go:131-147 | the Manhattan distance is non-negative and zero exactly for equal positions |
| Voxels.AddSubRoundTrip | pkg/voxel/voxel.go:113-147 | Add and Sub undo each other; the distance between two positions is the distance of their difference from the origin |
| Voxels.DistanceIsAMetric | pkg/voxel/voxel.go:131-147 | the distance is symmetric and obeys the triangle inequality |
| Voxels.ToWorldSpace | pkg/voxel/voxel.go:95-102 | each component is a whole number that rounds down to the voxel's coordinate |
| Voxels.ToWorldSpaceFaithful | pkg/voxel/voxel.go:95-102 | distinct voxels map to distinct points, and the world point of a sum of positions is the sum of their world points |
| Voxels.DistanceExamples | pkg/voxel/voxel_test.go:137-153 | the distances the unit test expects: 12 to (3, 4, 5) and 9 to (-2, -3, -4) |
| Voxels.GetFaceNormal | pkg/voxel/voxel.go:171-188 | each face's normal is its offset as a float vector, the zero vector for an unknown face |
| Voxels.GetFaceOffset | pkg/voxel/voxel.go:191-208 | each of the six faces steps one unit along exactly one axis; any other value gives the zero offset |
| Voxels.FaceOffsetTable | pkg/voxel/voxel.go:191-208 | Top = +Y, Bottom = -Y, Left = -X, Right = +X, Front = +Z, Back = -Z |
| Voxels.FaceOffsetInjective | pkg/voxel/voxel.go:191-208 | no two faces share an offset |
| Voxels.FaceOfOffset | pkg/voxel/voxel.go:191-208 | a face is recovered from its offset |
| ChunkPositions.ChunkPosition.Distance | pkg/chunk/chunk_position.go:28-44 | the chunk distance is non-negative and zero exactly for equal positions |
| ChunkPositions.ChunkPosition.GetNeighborPosition | pkg/chunk/chunk_position.go:61-68 | the neighbour through one of the six faces is at distance one; an unknown face leaves the position unchanged |
| ChunkPositions.ChunkArithmetic | pkg/chunk/chunk_position.go:12-44 | chunk Add and Sub undo each other; the distance is symmetric and obeys the triangle inequality |
| ChunkPositions.NeighborIsOffset | pkg/chunk/chunk_position.go:61-68 | the neighbour minus the position is exactly the face's offset |
| ChunkPositions.GoRemBounds | pkg/chunk/chunk_position.go:70-83 | Go's truncating `/` and `%` satisfy a == (a / b) * b + a % b; the remainder lies in [0, b) for a ≥ 0 and in (-b, 0] for a < 0 |
| ChunkPositions.FloorDivIsFloor | pkg/chunk/chunk_position.go:70-75 | floorDiv is floor division: q * b ≤ a < q * b + b, for negative a too |
| ChunkPositions.ModIsFloorMod | pkg/chunk/chunk_position.go:77-83 | mod's result always lies in [0, b) and equals the floor modulo |
| ChunkPositions.FloorDivModRoundTrip | pkg/chunk/chunk_position.go:70-83 | floorDiv(a, b) * b + mod(a, b) == a with 0 ≤ mod < b, for every a |
| ChunkPositions.ChunkLocalRoundTrip | pkg/chunk/chunk_position.go:46-59 | chunk * 32 + local gives back the voxel coordinate on every axis, and every local coordinate lies in [0, 32) |
| ChunkPositions.ChunkLocalUnique | pkg/chunk/chunk_position.go:46-59 | any chunk and in-range local coordinate that add up to the voxel are the ones the split returns |
| ChunkPositions.NegativeExamples | pkg/chunk/chunk_position.go:46-83 | voxel -1 lies in chunk -1 at local 31; -32 lies in chunk -1; -33 lies in chunk -2; 31 lies in chunk 0 |
| ChunkPositions.Wrap32 | pkg/chunk/chunk_position.go:70-75 | int32 wrap-around always lands in the int32 range and leaves in-range values unchanged |
| ChunkPositions.FloorDivInt32AgreesInRange | pkg/chunk/chunk_position.go:70-75 | wherever a - b + 1 does not overflow, the int32 floorDiv equals true floor division |
| ChunkPositions.FloorDivInt32WrapsAtMinimum | pkg/chunk/chunk_position.go:70-75 | at a = -2147483648 the int32 floorDiv returns 67108863 instead of -67108864, and the chunk/local round trip fails |
| ChunkGrid.LocalToIndex | pkg/chunk/chunk_data.go:198-200 | a valid local coordinate maps to an index inside the 32768-cell array |
| ChunkGrid.IndexToLocalInvertsLocalToIndex | pkg/chunk/chunk_data.go:198-208 | indexToLocal(localToIndex(x, y, z)) == (x, y, z) for every valid coordinate |
| ChunkGrid.LocalToIndexInvertsIndexToLocal | pkg/chunk/chunk_data.go:198-208 | every array index comes from the valid coordinate indexToLocal gives for it |
| ChunkGrid.LocalToIndexInjective | pkg/chunk/chunk_data.go:198-200 | distinct valid coordinates have distinct indices |
| ChunkGrid.VoxelAt | pkg/chunk/chunk_data.go:46-56 | a read outside the chunk gives air |
| ChunkGrid.AllAirReadsAir | pkg/chunk/chunk_data.go:160-168 | the grid is all air exactly when every coordinate reads air |
| ChunkGrid.ReadAfterWrite | pkg/chunk/chunk_data.go:58-81 | after storing v at a valid coordinate, that coordinate reads v and every other coordinate reads as before |
| ChunkGrid.Redirect | pkg/chunk/chunk_data.go:92-112 | a coordinate outside the chunk is always looked up through one of the six neighbour slots |
| ChunkGrid.SafeVoxelAcrossFace | pkg/chunk/chunk_data.go:83-122 | one step out of a cell through a face reads the chunk's own cell or, when the step leaves the chunk, the neighbour on that same face at the floor-modulo local coordinate; air when that slot is empty |
| ChunkGrid.WrapOneStep | pkg/chunk/chunk_data.go:92-112 | a coordinate at most one step outside wraps to the opposite edge, which is its floor modulo 32 |
| ChunkGrid.RedirectAcrossFace | pkg/chunk/chunk_data.go:92-112 | stepping out through a face is redirected to that face's slot, at the wrapped coordinate |
| ChunkGrid.SafeVoxelIgnoresDistance | pkg/chunk/chunk_data.go:92-95 | how far past the low x edge a coordinate lies does not matter: it reads what x = -1 reads |
| ChunkGrid.SafeVoxelDiagonalIsAir | pkg/chunk/chunk_data.go:92-122 | a coordinate outside the chunk on two axes at once reads air, because only one axis is redirected |
| Chunks.Chunk.constructor | pkg/chunk/chunk_data.go:30-44 | a new chunk is all air, has six empty neighbour slots, and is dirty, empty and unmodified |
| Chunks.Chunk.GetVoxel | pkg/chunk/chunk_data.go:46-56 | the voxel stored at a valid coordinate; air outside the chunk |
| Chunks.Chunk.SetVoxel | pkg/chunk/chunk_data.go:58-81 | only a valid coordinate whose stored type differs is written; the chunk becomes dirty and modified exactly then; the coordinate reads v afterwards; isEmpty stays equal to "all air" |
| Chunks.Chunk.CheckIfEmpty | pkg/chunk/chunk_data.go:160-168 | isEmpty becomes true exactly when every voxel is air; nothing else changes |
| Chunks.Chunk.Fill | pkg/chunk/chunk_data.go:170-182 | every voxel becomes the given type; empty exactly for air; dirty and modified |
| Chunks.Chunk.GetVoxelSafe | pkg/chunk/chunk_data.go:83-122 | the voxel SafeVoxel specifies for what the chunk sees: its own cell, the redirected cell of the neighbour, or air for an empty slot |
| Chunks.Chunk.SetNeighbor | pkg/chunk/chunk_data.go:124-130 | only the given slot changes, and the chunk becomes dirty |
| Chunks.Chunk.GetNeighbor | pkg/chunk/chunk_data.go:132-137 | the content of the given slot |
| Chunks.Chunk.IsDirty | pkg/chunk/chunk_data.go:139-144 | true exactly when the chunk's dirty flag is set |
| Chunks.Chunk.SetDirty | pkg/chunk/chunk_data.go:146-151 | the dirty flag takes the given value, and IsDirty then reports it; nothing else changes |
| Chunks.Chunk.IsEmpty | pkg/chunk/chunk_data.go:153-158 | under the chunk invariant, the flag is true exactly when every voxel is air |
| Chunks.Chunk.GetWorldPosition | pkg/chunk/chunk_data.go:184-190 | the world position of the chunk's origin splits back into this chunk at local (0, 0, 0) |
| Chunks.Chunk.IsFaceVisible | pkg/chunk/chunk_mesh.go:186-196 | the face is visible exactly when the voxel beyond it, read through the neighbour if needed, is air or transparent |
| Chunks.Chunk.EmitFace | pkg/chunk/chunk_mesh.go:171-176 | one pass of the face loop: the face is appended to the mesh exactly when it is visible |
| Chunks.Chunk.EmitFaces | pkg/chunk/chunk_mesh.go:171-176 | the face loop appends the visible faces of a cell, in face order |
| Chunks.Chunk.EmitCell | pkg/chunk/chunk_mesh.go:165-176 | an air cell appends nothing; any other cell appends its visible faces |
| Chunks.Chunk.EmitColumn | pkg/chunk/chunk_mesh.go:164-177 | the z loop extends the mesh from the faces before column (x, y) to the faces before column (x, y + 1) in loop order |
| Chunks.Chunk.EmitSlice | pkg/chunk/chunk_mesh.go:163-178 | the y loop extends the mesh from the faces before slice x to the faces before slice x + 1 |
| Chunks.Chunk.EmitMesh | pkg/chunk/chunk_mesh.go:162-179 | the three nested loops leave a mesh holding exactly the chunk's generated faces, in loop order |
| Chunks.Chunk.GenerateMesh | pkg/chunk/chunk_mesh.go:155-184 | a new mesh holding exactly the generated faces of what the chunk saw; the dirty flag is cleared when the chunk is not empty and kept when it is; nothing else changes |
| ChunkMeshes.GetFaceVertices | pkg/chunk/chunk_mesh.go:81-128 | four corners per face: the corrected table of Findings, which a fix would substitute; the mesh does not use it |
| ChunkMeshes.FaceVerticesAsWritten | pkg/chunk/chunk_mesh.go:81-128 | the corner table exactly as the source writes it, four corners per face; every mesh face is built from it |
| ChunkMeshes.FaceVerticesAsWrittenShape | pkg/chunk/chunk_mesh.go:81-124 | in the source's table every corner has 0/1 coordinates and lies on its face's side of the unit cell; a face's four corners are distinct, and their texture coordinates run round the unit square in order |
| ChunkMeshes.FaceVerticesShape | pkg/chunk/chunk_mesh.go:81-124 | in the corrected table every corner has 0/1 coordinates and lies on its face's side of the unit cell; a face's four corners are distinct, and their texture coordinates run round the unit square in order |
| ChunkMeshes.FaceVerticesWoundOutward | pkg/chunk/chunk_mesh.go:81-124 | with the corrected table, both triangles of every face are counter-clockwise seen from outside the cell |
| ChunkMeshes.TopWoundOutward | pkg/chunk/chunk_mesh.go:83-89 | the corrected Top quad is wound outward |
| ChunkMeshes.BottomWoundOutward | pkg/chunk/chunk_mesh.go:90-96 | the corrected Bottom quad is wound outward |
| ChunkMeshes.LeftWoundOutward | pkg/chunk/chunk_mesh.go:97-103 | the Left quad is wound outward |
| ChunkMeshes.RightWoundOutward | pkg/chunk/chunk_mesh.go:104-110 | the Right quad is wound outward |
| ChunkMeshes.FrontWoundOutward | pkg/chunk/chunk_mesh.go:111-117 | the Front quad is wound outward |
| ChunkMeshes.BackWoundOutward | pkg/chunk/chunk_mesh.go:118-124 | the Back quad is wound outward |
| ChunkMeshes.FaceVerticesAsWrittenWinding | pkg/chunk/chunk_mesh.go:81-124 | as written, Left, Right, Front and Back are wound outward, but the first triangle of Top and of Bottom has its normal pointing into the cell |
| ChunkMeshes.TopAsWrittenWoundInward | pkg/chunk/chunk_mesh.go:83-89 | the as-written Top quad's first triangle has normal -Y |
| ChunkMeshes.BottomAsWrittenWoundInward | pkg/chunk/chunk_mesh.go:90-96 | the as-written Bottom quad's first triangle has normal +Y |
| ChunkMeshes.AsWrittenTable | pkg/chunk/chunk_mesh.go:81-124 | the as-written corners of each face, next to that face's offset |
| ChunkMeshes.FaceVerticesSameCorners | pkg/chunk/chunk_mesh.go:81-124 | the corrected table equals the source's for Left, Right, Front and Back; for Top and Bottom it keeps the first and third corners and swaps the positions of the second and fourth |
| ChunkMeshes.GetVoxelTypeColor | pkg/chunk/chunk_mesh.go:130-153 | the colour is white exactly for air and for the unnamed types |
| ChunkMeshes.VertexRecord | pkg/chunk/chunk_mesh.go:37-58 | one vertex is 11 floats |
| ChunkMeshes.CornerRecords | pkg/chunk/chunk_mesh.go:36-59 | the first k corners of the source's table give 11 * k floats |
| ChunkMeshes.CornerRecordsLayout | pkg/chunk/chunk_mesh.go:36-59 | vertex i of a face is the cell position plus corner i of the source's table, then the face normal, the corner's texture coordinate and the type's colour |
| ChunkMeshes.QuadIndices | pkg/chunk/chunk_mesh.go:61-64 | six indices, all naming one of the quad's four vertices |
| ChunkMeshes.EmitVertices | pkg/chunk/chunk_mesh.go:28-68 | a mesh holding n faces has 44 * n vertex floats |
| ChunkMeshes.EmitIndices | pkg/chunk/chunk_mesh.go:28-68 | a mesh holding n faces has 6 * n indices |
| ChunkMeshes.EmitIndicesInRange | pkg/chunk/chunk_mesh.go:34-64 | every index names one of the mesh's 4 * n vertices |
| ChunkMeshes.EmitAppend | pkg/chunk/chunk_mesh.go:28-68 | adding a face appends its four vertex records and its six indices, based at the old vertex count |
| ChunkMeshes.ChunkMesh.constructor | pkg/chunk/chunk_mesh.go:21-26 | a new mesh holds no face and has no graphics handles |
| ChunkMeshes.ChunkMesh.AddFace | pkg/chunk/chunk_mesh.go:28-68 | appends the face's four vertex records, built from the source's corner table, and the two triangles over them; counts grow by 4 and 6; the buffer invariant is kept |
| ChunkMeshes.ChunkMesh.Clear | pkg/chunk/chunk_mesh.go:70-75 | the mesh holds no face; the handles are kept |
| ChunkMeshes.ChunkMesh.IsEmpty | pkg/chunk/chunk_mesh.go:77-79 | true exactly when the mesh holds no face |
| ChunkMeshes.HoldsIsValid | pkg/chunk/chunk_mesh.go:28-68 | a mesh built by adding faces satisfies the buffer invariant: 11 floats per vertex, 6 indices per 4 vertices, every index in range |
| ChunkMeshes.VisibleFacesMembers | pkg/chunk/chunk_mesh.go:171-176 | a cell's emitted faces are exactly its faces that the culling rule shows, at the cell's world position |
| ChunkMeshes.CellFacesMembers | pkg/chunk/chunk_mesh.go:165-176 | an air cell emits nothing; any other cell emits exactly its shown faces, with its type |
| ChunkMeshes.FacesBeforeMembers | pkg/chunk/chunk_mesh.go:162-179 | the faces emitted before a loop position are exactly the shown faces of the non-air cells before it in x, y, z order |
| ChunkMeshes.GeneratedFacesExact | pkg/chunk/chunk_mesh.go:155-196 | a face is in the generated mesh exactly when its cell is a non-air cell of the chunk and the voxel beyond it is air or transparent |
| ChunkMeshes.VisibleFacesNoDuplicates | pkg/chunk/chunk_mesh.go:171-176 | no face of a cell is emitted twice |
| ChunkMeshes.CellFacesNoDuplicates | pkg/chunk/chunk_mesh.go:165-176 | no face of a cell is emitted twice |
| ChunkMeshes.FacesBeforeNoDuplicates | pkg/chunk/chunk_mesh.go:162-179 | the loops emit no face twice |
| ChunkMeshes.GeneratedFacesOnce | pkg/chunk/chunk_mesh.go:155-184 | the generated mesh lists every face at most once |
| ChunkMeshes.FacesBeforeOnlyCell | pkg/chunk/chunk_mesh.go:162-179 | with a single non-air cell, the faces before a loop position are that cell's faces once the loop has passed it, and none before |
| ChunkMeshes.AllAirEmitsNothing | pkg/chunk/chunk_mesh.go:162-179 | an all-air chunk generates no face |
| ChunkMeshes.AllFacesShown | pkg/chunk/chunk_mesh.go:171-176 | when the rule shows every face, all the first k faces are emitted |
| ChunkMeshes.LoneVoxelSeesAir | pkg/chunk/chunk_mesh.go:186-196 | every face of a single voxel surrounded by air and empty slots is visible |
| ChunkMeshes.LoneVoxelMesh | pkg/chunk/chunk_mesh.go:155-184 | a single voxel alone in a chunk with no neighbours generates 6 faces, 24 vertices and 36 indices |
| ChunkManagers.GetOppositeFace | pkg/chunk/chunk_manager.go:204-221 | each of the six faces has a different face as its opposite; any other value is returned unchanged |
| ChunkManagers.OppositeOffset | pkg/chunk/chunk_manager.go:204-221 | the opposite face's offset is the negated offset |
| ChunkManagers.OppositeIsInvolution | pkg/chunk/chunk_manager.go:204-221 | taking the opposite twice gives the face back |
| ChunkManagers.NeighborRoundTrip | pkg/chunk/chunk_manager.go:56-67 | the neighbour through f sees the start through the opposite face, and it is the only chunk that does |
| ChunkManagers.Around | pkg/chunk/chunk_manager.go:57-58 | every position reached through a face is at distance one |
| ChunkManagers.AroundIsDistanceOne | pkg/chunk/chunk_manager.go:57-58 | the positions reached through the six faces are exactly those at distance one |
| ChunkManagers.PendingStep | pkg/chunk/chunk_manager.go:57-65 | one pass of the wiring loop settles exactly two slots: the new chunk's slot on that face and the opposite slot of the chunk across it |
| ChunkManagers.CutStep | pkg/chunk/chunk_manager.go:135-140 | one pass of the unloading loop cuts exactly the opposite slot of the chunk across that face |
| ChunkManagers.WiredIsCutFromTop | pkg/chunk/chunk_manager.go:134-135 | before the unloading loop nothing is cut yet |
| ChunkManagers.WiredFromComplete | pkg/chunk/chunk_manager.go:57-67 | after the last face nothing is left to wire: every slot of every loaded chunk points at the chunk across it when that chunk is loaded, and is empty otherwise |
| ChunkManagers.AirGrid | pkg/chunk/chunk_data.go:36-41 | a new chunk's grid has 32768 cells, all air |
| ChunkManagers.SplitIsInjective | pkg/chunk/chunk_position.go:46-59 | a global position is determined by its chunk and its local coordinate |
| ChunkManagers.ChunkOfStep | pkg/chunk/chunk_manager.go:87-121 | one step through a face stays in the voxel's chunk unless the local coordinate is on that face's edge; then it lands in the chunk across it |
| ChunkManagers.MarkedAreAcrossFaces | pkg/chunk/chunk_manager.go:87-121 | the chunks a write marks are exactly the chunks, other than its own, that hold one of the voxel's six face neighbours |
| ChunkManagers.Visit | pkg/chunk/chunk_manager.go:152-156 | one pass over the map appends a chunk exactly when it is wanted, and keeps the list free of duplicates |
| ChunkManagers.Tally | pkg/chunk/chunk_manager.go:180-187 | one pass of the statistics loop adds one to each counter whose flag is set |
| ChunkManagers.DueIffDirtyAndNotEmpty | pkg/chunk/chunk_manager.go:153 | a loaded chunk is due for a rebuild exactly when IsDirty is true and IsEmpty is false |
| ChunkManagers.RebuildIsDirtyMinusEmpty | pkg/chunk/chunk_manager.go:147-159 | the chunks to rebuild are the dirty ones minus the empty ones, so never more than the dirty ones |
| ChunkManagers.ChunkManager.constructor | pkg/chunk/chunk_manager.go:20-24 | a new manager has no chunks and zero counters |
| ChunkManagers.ChunkManager.GetChunk | pkg/chunk/chunk_manager.go:26-36 | the chunk at the position, created exactly as CreateChunk does when it is absent |
| ChunkManagers.ChunkManager.CreateChunk | pkg/chunk/chunk_manager.go:38-54 | an existing chunk is returned and nothing changes; otherwise a new all-air, dirty, empty chunk is stored and counted, and wired both ways to the loaded chunks around it, which become dirty; no global voxel reads differently |
| ChunkManagers.ChunkManager.LoadChunk | pkg/chunk/chunk_manager.go:46-53 | CreateChunk for an absent position: a new chunk, both counters + 1, the wiring invariant restored |
| ChunkManagers.ChunkManager.InsertChunk | pkg/chunk/chunk_manager.go:46-49 | the new chunk is stored under its position and counted; only its own wiring is pending |
| ChunkManagers.ChunkManager.SetupNeighbors | pkg/chunk/chunk_manager.go:56-67 | after the loop every slot is wired: each slot of each loaded chunk points at the loaded chunk across it or is empty; the chunks touched become dirty |
| ChunkManagers.ChunkManager.WireFace | pkg/chunk/chunk_manager.go:58-65 | when the position across the face is loaded, the two facing slots are pointed at each other and that neighbour becomes dirty |
| ChunkManagers.ChunkManager.UnloadChunk | pkg/chunk/chunk_manager.go:130-145 | the chunk is removed and the loaded count drops by one; no remaining slot points at it; the neighbours become dirty; an absent position changes nothing |
| ChunkManagers.ChunkManager.RemoveChunk | pkg/chunk/chunk_manager.go:142-143 | once every back-link is cut, deleting the entry restores the wiring invariant |
| ChunkManagers.ChunkManager.CutNeighbors | pkg/chunk/chunk_manager.go:135-140 | after the loop every slot that faced the unloaded chunk is empty, and every other slot is unchanged |
| ChunkManagers.ChunkManager.CutFace | pkg/chunk/chunk_manager.go:136-139 | the neighbour across the face gets its opposite slot emptied and becomes dirty |
| ChunkManagers.ChunkManager.GetVoxel | pkg/chunk/chunk_manager.go:69-75 | the voxel stored at the global position (air in a new chunk); its chunk is loaded afterwards and no position reads differently |
| ChunkManagers.ChunkManager.SetVoxel | pkg/chunk/chunk_manager.go:77-85 | afterwards the position reads v and no other position reads differently; its chunk becomes dirty when the voxel changed; exactly the loaded chunks across its edges become dirty |
| ChunkManagers.ChunkManager.WriteVoxel | pkg/chunk/chunk_manager.go:81-84 | the write, then the marking: the read-after-write property, plus the dirty flags raised exactly on the marked chunks |
| ChunkManagers.ChunkManager.StoreVoxel | pkg/chunk/chunk_manager.go:81-82 | the chunk's SetVoxel in global terms: the position reads v, no other reads differently, and dirty and modified are raised exactly when the voxel changed |
| ChunkManagers.ChunkManager.MarkAdjacentChunksDirty | pkg/chunk/chunk_manager.go:87-121 | exactly the loaded chunks across the edges the voxel lies on become dirty; no voxel, slot or other flag changes |
| ChunkManagers.ChunkManager.MarkAcrossEdges | pkg/chunk/chunk_manager.go:88-120 | the six edge tests raise the dirty flag exactly on the marked chunks |
| ChunkManagers.ChunkManager.MarkAcrossEdge | pkg/chunk/chunk_manager.go:91-95 | one edge test raises the flag of the chunk across the edge, if it is loaded and the voxel is on that edge |
| ChunkManagers.ChunkManager.GetDirtyChunks | pkg/chunk/chunk_manager.go:147-159 | each chunk that is dirty and not empty, exactly once |
| ChunkManagers.ChunkManager.GetLoadedChunks | pkg/chunk/chunk_manager.go:161-171 | each loaded chunk, exactly once |
| ChunkManagers.ChunkManager.GetStats | pkg/chunk/chunk_manager.go:173-195 | both counters as kept, plus the number of dirty and the number of empty loaded chunks |
| ChunkManagers.ChunkManager.GetChunkIfExists | pkg/chunk/chunk_manager.go:123-128 | the loaded chunk at the position, or none; it never creates one |
| ChunkRenderers.Device.constructor | pkg/graphics/chunk_renderer.go:16-20 | a device with no handle allocated |
| ChunkRenderers.Device.Gen | pkg/graphics/chunk_renderer.go:40-42 | a fresh non-zero handle that is not currently allocated |
| ChunkRenderers.Device.Release | pkg/graphics/chunk_renderer.go:70-81 | the handle is no longer allocated |
| ChunkRenderers.TriangleCountOfFaces | pkg/graphics/chunk_renderer.go:94 | a mesh holding n faces counts 2 * n triangles |
| ChunkRenderers.UploadMesh | pkg/graphics/chunk_renderer.go:39-67 | the mesh gets three distinct non-zero handles not live before; its buffers are unchanged |
| ChunkRenderers.DeleteMesh | pkg/graphics/chunk_renderer.go:69-82 | the mesh's non-zero handles are released and all three are zeroed; the buffers are unchanged |
| ChunkRenderers.ReleaseAll | pkg/graphics/chunk_renderer.go:122-124 | every mesh in the set is zeroed, and exactly their handles are released |
| ChunkRenderers.ReleaseOne | pkg/graphics/chunk_renderer.go:123 | releasing one more mesh zeroes it and releases exactly its handles, keeping the account of what is still live |
| ChunkRenderers.SeparateValues | pkg/graphics/chunk_renderer.go:10 | meshes cached at different positions are distinct and share no handle, and all their handles are live |
| ChunkRenderers.FaceSumTakeAny | pkg/graphics/chunk_renderer.go:97-105 | the faces total does not depend on the order the positions are visited in: any position can be taken first |
| ChunkRenderers.ChunkRenderer.constructor | pkg/graphics/chunk_renderer.go:16-20 | an empty cache and zero counters |
| ChunkRenderers.ChunkRenderer.UpdateChunkMesh | pkg/graphics/chunk_renderer.go:22-37 | the position shows exactly the chunk's generated faces: a fresh uploaded mesh, or none when there are no faces; the old mesh's handles are released; other positions are untouched |
| ChunkRenderers.ChunkRenderer.ReplaceMesh | pkg/graphics/chunk_renderer.go:25-36 | the old mesh at the position is released; a mesh with faces is uploaded and cached; an empty one leaves the position without a mesh |
| ChunkRenderers.ChunkRenderer.DropMesh | pkg/graphics/chunk_renderer.go:25-31 | the cached mesh is released and its entry deleted |
| ChunkRenderers.ChunkRenderer.CacheMesh | pkg/graphics/chunk_renderer.go:34-36 | the mesh is uploaded with fresh handles and cached at the position |
| ChunkRenderers.ChunkRenderer.UpdateDirtyChunks | pkg/graphics/chunk_renderer.go:111-119 | returns the number of chunks to rebuild; afterwards no chunk needs rebuilding; only their positions change in the cache; the manager stays consistent, every loaded chunk keeps its neighbour slots and its empty and modified flags, and keeps its dirty flag exactly when it was not rebuilt (it was clean or empty) |
| ChunkRenderers.ChunkRenderer.RebuildDirty | pkg/graphics/chunk_renderer.go:114-116 | the loop over the collected list, stated of the whole map: each loaded chunk keeps its slots and empty and modified flags, its dirty flag is cleared unless it is empty, and only the rebuilt positions change in the cache |
| ChunkRenderers.ChunkRenderer.RebuildAll | pkg/graphics/chunk_renderer.go:114-116 | every listed chunk is rebuilt and clean, keeps its slots and its empty and modified flags, and only their positions change in the cache |
| ChunkRenderers.ChunkRenderer.RebuildNext | pkg/graphics/chunk_renderer.go:115 | one pass of the rebuild loop: the next chunk is rebuilt and clean with its other flags kept, the chunks around it in the list are unchanged, and only its position changes in the cache |
| ChunkRenderers.ChunkRenderer.Rebuild | pkg/graphics/chunk_renderer.go:115 | the chunk's mesh is regenerated and re-uploaded, the chunk is clean unless it is empty, its slots and empty and modified flags are kept, and only its position changes in the cache |
| ChunkRenderers.ChunkRenderer.RenderChunk | pkg/graphics/chunk_renderer.go:84-95 | adds the cached mesh's triangle count to the faces counter; a position without a mesh adds nothing |
| ChunkRenderers.ChunkRenderer.RenderAll | pkg/graphics/chunk_renderer.go:97-105 | the counters become the number of cached meshes and the sum of their triangle counts |
| ChunkRenderers.ChunkRenderer.GetStats | pkg/graphics/chunk_renderer.go:107-109 | the two counters of the last frame |
| ChunkRenderers.ChunkRenderer.GetMeshCount | pkg/graphics/chunk_renderer.go:128-130 | the number of cached meshes |
| ChunkRenderers.ChunkRenderer.Clear | pkg/graphics/chunk_renderer.go:121-126 | every cached mesh is zeroed, exactly their handles are released, and the cache is empty |
| VoxelMeshBuilders.ShouldRenderFace | pkg/mesh/voxel_mesh_builder.go:29-43 | never for an air voxel; always against air; between two solid voxels exactly when an opaque voxel faces a transparent one |
| VoxelMeshBuilders.ShouldRenderFaceExamples | pkg/mesh/voxel_mesh_builder.go:29-43 | stone beside glass is drawn, glass beside water and stone beside stone are not, water beside air is |
| VoxelMeshBuilders.CullingAgainstChunkMesh | pkg/mesh/voxel_mesh_builder.go:29-43 | compared with the chunk mesh's rule: never more faces; the same faces for an opaque voxel; only faces against air for a transparent voxel |
| VoxelMeshBuilders.BuilderCorners | pkg/mesh/voxel_mesh_builder.go:79-143 | four corners per face |
| VoxelMeshBuilders.BuilderCornersShape | pkg/mesh/voxel_mesh_builder.go:79-143 | each corner lies on its face's side of the unit cell, the four are distinct, and they are the chunk mesh's corners for that face |
| VoxelMeshBuilders.BuilderWindingIsUniform | pkg/mesh/voxel_mesh_builder.go:79-158 | on every face both triangles turn clockwise seen from outside the cell |
| VoxelMeshBuilders.TopBuilderWinding | pkg/mesh/voxel_mesh_builder.go:79-88 | the Top quad's triangles have normal -Y |
| VoxelMeshBuilders.BottomBuilderWinding | pkg/mesh/voxel_mesh_builder.go:90-99 | the Bottom quad's triangles have normal +Y |
| VoxelMeshBuilders.LeftBuilderWinding | pkg/mesh/voxel_mesh_builder.go:101-110 | the Left quad's triangles have normal +X |
| VoxelMeshBuilders.RightBuilderWinding | pkg/mesh/voxel_mesh_builder.go:112-121 | the Right quad's triangles have normal -X |
| VoxelMeshBuilders.FrontBuilderWinding | pkg/mesh/voxel_mesh_builder.go:123-132 | the Front quad's triangles have normal -Z |
| VoxelMeshBuilders.BackBuilderWinding | pkg/mesh/voxel_mesh_builder.go:134-143 | the Back quad's triangles have normal +Z |
| VoxelMeshBuilders.VertexRecord | pkg/mesh/voxel_mesh_builder.go:145-151 | one vertex is 9 floats |
| VoxelMeshBuilders.CornerRecord | pkg/mesh/voxel_mesh_builder.go:82-85 | a face vertex is 9 floats |
| VoxelMeshBuilders.WithQuad | pkg/mesh/voxel_mesh_builder.go:79-88 | a face adds four vertices of 9 floats |
| VoxelMeshBuilders.QuadAppended | pkg/mesh/voxel_mesh_builder.go:79-88 | four add*Face vertex calls append exactly the face's four corner records |
| VoxelMeshBuilders.QuadIndices | pkg/mesh/voxel_mesh_builder.go:153-158 | six indices, all naming one of the quad's four vertices |
| VoxelMeshBuilders.BuiltVertices | pkg/mesh/voxel_mesh_builder.go:145-151 | n faces give 36 * n floats |
| VoxelMeshBuilders.BuiltIndices | pkg/mesh/voxel_mesh_builder.go:153-158 | n faces give 6 * n indices, each naming one of the 4 * n vertices |
| VoxelMeshBuilders.CulledFaces | pkg/mesh/voxel_mesh_builder.go:45-77 | a voxel adds at most six faces |
| VoxelMeshBuilders.Shown | pkg/mesh/voxel_mesh_builder.go:54-56 | a face is added exactly when ShouldRenderFace holds |
| VoxelMeshBuilders.CulledFacesExact | pkg/mesh/voxel_mesh_builder.go:45-77 | the faces added are exactly those that pass the culling test, each once, at the voxel's world position with its colour |
| VoxelMeshBuilders.CulledFacesExtremes | pkg/mesh/voxel_mesh_builder.go:45-77 | an air voxel adds nothing; a solid voxel with air all round adds all six faces |
| VoxelMeshBuilders.CulledFacesUnrolled | pkg/mesh/voxel_mesh_builder.go:54-76 | the six tests in a row add what CulledFaces lists, in face order |
| VoxelMeshBuilders.VoxelMeshBuilder.constructor | pkg/mesh/voxel_mesh_builder.go:13-18 | an empty builder |
| VoxelMeshBuilders.VoxelMeshBuilder.GetVertexCount | pkg/mesh/voxel_mesh_builder.go:173-175 | four vertices per face added |
| VoxelMeshBuilders.VoxelMeshBuilder.GetTriangleCount | pkg/mesh/voxel_mesh_builder.go:177-179 | two triangles per face added |
| VoxelMeshBuilders.VoxelMeshBuilder.AddVertex | pkg/mesh/voxel_mesh_builder.go:145-151 | appends one 9-float record |
| VoxelMeshBuilders.VoxelMeshBuilder.AddQuadIndices | pkg/mesh/voxel_mesh_builder.go:153-158 | appends the quad's six indices |
| VoxelMeshBuilders.VoxelMeshBuilder.AddCorners | pkg/mesh/voxel_mesh_builder.go:80-86 | appends the face's four corner records |
| VoxelMeshBuilders.VoxelMeshBuilder.AddFace | pkg/mesh/voxel_mesh_builder.go:79-143 | the builder then holds one more face; its buffers are what the faces produce |
| VoxelMeshBuilders.VoxelMeshBuilder.AddVoxelWithCulling | pkg/mesh/voxel_mesh_builder.go:45-77 | adds exactly the culled faces of the voxel, in face order |
| VoxelMeshBuilders.VoxelMeshBuilder.AddFaceIfShown | pkg/mesh/voxel_mesh_builder.go:54-56 | adds the face exactly when the culling test passes |
| VoxelMeshBuilders.VoxelMeshBuilder.Reset | pkg/mesh/voxel_mesh_builder.go:160-163 | the builder holds no face |
| VoxelMeshBuilders.BuilderShape | pkg/mesh/voxel_mesh_builder.go:145-179 | the buffers hold whole quads (36 floats and 6 indices each), and every index names a vertex |
| CubeMeshes.CubeMesh.ToFloatArray | pkg/mesh/cube_mesh.go:75-85 | the vertices flattened in order, 8 floats each |
| CubeMeshes.CubeMesh.GetVertexStride | pkg/mesh/cube_mesh.go:87-89 | 32 bytes, which is exactly the spacing of the vertices in ToFloatArray's output |
| CubeMeshes.VertexFloats | pkg/mesh/cube_mesh.go:79-81 | one vertex is 8 floats |
| CubeMeshes.FlattenLength | pkg/mesh/cube_mesh.go:75-85 | n vertices give 8 * n floats |
| CubeMeshes.FlattenAppend | pkg/mesh/cube_mesh.go:78-82 | flattening one more vertex appends its 8 floats |
| CubeMeshes.FlattenLayout | pkg/mesh/cube_mesh.go:75-89 | vertex i is read back from floats 8i to 8i + 7 |
| CubeMeshes.UnflattenFlatten | pkg/mesh/cube_mesh.go:75-85 | flattening loses nothing: unflattening gives the vertices back |
| CubeMeshes.FlattenUnflatten | pkg/mesh/cube_mesh.go:75-85 | every float array of a multiple of 8 floats is the flattening of some vertex list |
| CubeMeshes.FaceQuad | pkg/mesh/cube_mesh.go:21-57 | four vertices per face |
| CubeMeshes.NewCubeMesh | pkg/mesh/cube_mesh.go:18-73 | 24 vertices and 36 indices, every index naming a vertex |
| CubeMeshes.CubeVertexOfFace | pkg/mesh/cube_mesh.go:21-57 | vertex 4k + j is corner j of face k, with faces in the order Front, Back, Top, Bottom, Right, Left |
| CubeMeshes.CubeIndexOfFace | pkg/mesh/cube_mesh.go:60-67 | face k is drawn as the triangles 4k, 4k+1, 4k+2 and 4k+2, 4k+3, 4k |
| CubeMeshes.FaceQuadShape | pkg/mesh/cube_mesh.go:21-57 | each face's corners lie on that face of the cube with half-edge size/2, carry its normal and the texture corners in order, and both triangles are wound outward |
| CubeMeshes.FrontShape | pkg/mesh/cube_mesh.go:23-26 | the Front quad has the shape of the +Z face |
| CubeMeshes.BackShape | pkg/mesh/cube_mesh.go:29-32 | the Back quad has the shape of the -Z face |
| CubeMeshes.TopShape | pkg/mesh/cube_mesh.go:35-38 | the Top quad has the shape of the +Y face |
| CubeMeshes.BottomShape | pkg/mesh/cube_mesh.go:41-44 | the Bottom quad has the shape of the -Y face |
| CubeMeshes.RightShape | pkg/mesh/cube_mesh.go:47-50 | the Right quad has the shape of the +X face |
| CubeMeshes.LeftShape | pkg/mesh/cube_mesh.go:53-56 | the Left quad has the shape of the -X face |
| CubeMeshes.NewCubeMeshLayout | pkg/mesh/cube_mesh.go:18-73 | the table is the six face quads in order, each drawn by its two triangles |
| CubeMeshes.NewCubeMeshShape | pkg/mesh/cube_mesh.go:18-73 | the layout above, with every quad in the shape of its face |
| CubeMeshes.LayoutTriangle | pkg/mesh/cube_mesh.go:60-67 | triangle 2k + d of the cube is triangle d of face k's quad |
| CubeMeshes.ShapeTriangleOutward | pkg/mesh/cube_mesh.go:21-67 | both triangles of a face-shaped quad are wound outward |
| CubeMeshes.CubeWoundOutward | pkg/mesh/cube_mesh.go:18-73 | for every size, each of the twelve triangles has the cross product of its edges equal to size² times its face normal, i.e. it is counter-clockwise seen from outside |

## Left out

- Mutexes and concurrency:
  - every lock in `Chunk` and `ChunkManager` is omitted;
  - the model is sequential;
  - `GetChunk`'s unlocked check followed by `CreateChunk`'s locked re-check is one step.
- The graphics API:
  - `UploadMesh` and `DeleteMesh` keep only the handle bookkeeping of `Device`;
  - buffer contents on the device, the vertex attribute layout, binding and `DrawElements` are not modelled;
  - both are module-level methods taking the device, because the Go methods never use their receiver.
- Map iteration order: `GetDirtyChunks`, `GetLoadedChunks`, `RenderAll` and `Clear` visit the map in an order left open. The results are stated as sets, or as sums that do not depend on order.
- `float32` rounding: vertex floats are `real`.
  - A position component is a coordinate plus 0 or 1. It equals its `float32` value only while its magnitude is at most 2^24; beyond that `float32(vp.X)` and the sums round, and the model does not.
  - Colours are the decimal literals of the colour table (0.55 at pkg/chunk/chunk_mesh.go:135, say), not the `float32` values nearest to them.
  - Normals and texture coordinates are -1, 0 or 1, which `float32` holds exactly. Halving a cube size is exact unless the size is subnormal.
- Machine integers in general: only `floorDiv`'s int32 wrap-around is modelled (see Findings).
  - Voxels.VoxelPosition.Distance: ignores int32 overflow of the coordinate differences and of their sum.
  - ChunkPositions.ChunkPosition.Distance: ignores int32 overflow of the coordinate differences and of their sum.
  - The `uint32` base index of a mesh is an unbounded `int`.
- Neighbour pointers are positions resolved through the manager's map. Pointer identity and the aliasing of two chunks are not modelled beyond the manager's invariant that each position holds its own chunk and array.
- `ToWorldSpaceCenter`, `WorldToVoxelPosition` (a float-to-int32 truncation) and `ChunkPosition.String` are not modelled.
- `ChunkManager.PrintStats` is not modelled: it only prints `GetStats`.
- `VoxelMeshBuilder.GetVertices` and `GetIndices` are not modelled: they return the fields, which are public in the model.
- The six `add*Face` methods of the builder are one `AddFace` over a per-face corner table.
- The cube's vertex table is written as six per-face quads concatenated in the table's order.
- The colour of a builder face is an opaque vector. The chunk mesh's colour table is kept as constants.
- ChunkRenderers.ChunkRenderer.UpdateDirtyChunks: does not state which faces each rebuilt position shows. It states how many chunks were rebuilt, that none needs rebuilding afterwards, that their cached meshes are fresh, and that nothing else in the cache changes. `UpdateChunkMesh` states the faces for one chunk.
- ChunkRenderers.ChunkRenderer.RebuildDirty: the same weakening as `UpdateDirtyChunks`, whose loop it is.
- ChunkRenderers.ChunkRenderer.RebuildAll: the same weakening, for the loop over the list.
- ChunkRenderers.ChunkRenderer.RebuildNext: the same weakening, for one pass of that loop.
- ChunkRenderers.ChunkRenderer.Rebuild: the same weakening, for one chunk.
- Chunks.Chunk.IsEmpty: the flag is related to the voxels only under the chunk invariant, which every method of the chunk keeps.
- ChunkRenderers.ChunkRenderer.UpdateChunkMesh: new handles are shown disjoint only from the handles that stayed live. A handle released earlier may be reused, as a real graphics driver may reuse it.
- The cache invariant (`Uploaded`) does not carry the mesh buffer invariant. A cached mesh is known non-empty with three live handles, and `UpdateChunkMesh` states what it holds.
- ChunkRenderers.ChunkRenderer.GetStats: `renderedFaces` counts triangles (index count / 3), as the source does, not quads.

## Findings

| source | as written | input that shows it | evidently intended | confidence | as-written member | corrected member |
|---|---|---|---|---|---|---|
| pkg/chunk/chunk_position.go:70-75 | `floorDiv` computes `(a - b + 1) / b` in int32 for negative `a` | a = -2147483648, b = 32: `a - b + 1` wraps to 2147483617, so the voxel lands in chunk 67108863 instead of -67108864 and chunk * 32 + local no longer gives the voxel back | floor division without overflow, e.g. `a / b` corrected by -1 when the remainder is negative | high; not executed | ChunkPositions.FloorDivInt32WrapsAtMinimum | ChunkPositions.FloorDivModRoundTrip |
| pkg/chunk/chunk_mesh.go:81-96 | the mesh is built from this table as written (`FaceVerticesAsWritten`); its Top and Bottom corner lists are ordered so that triangles 0,1,2 and 2,3,0 turn clockwise seen from outside the cell, while the other four faces turn counter-clockwise | face Top of any voxel: corners (0,1,0), (1,1,0), (1,1,1) give the right-hand normal (0,-1,0), pointing into the cell; with counter-clockwise front faces and back-face culling (pkg/graphics/window.go:72-74) these faces are culled when seen from outside | every face counter-clockwise seen from outside, as for Left, Right, Front and Back: the same corners with the second and fourth swapped | medium, since it depends on the cull state the window sets; not executed | ChunkMeshes.FaceVerticesAsWrittenWinding | ChunkMeshes.FaceVerticesWoundOutward |
