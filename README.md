# Gamecraft voxel core in Dafny

This project models the voxel core of Gamecraft, a block world rendered with
Bevy. A chunk is a 16 × 16 × 16 cube of block identifiers. The blocks are
stored in one flat array in x-fastest order, and identifier 0 is air. The
mesher walks the chunk in that order. For every solid block it emits one quad
for each of its six faces whose neighbour lies outside the chunk or is air.
Each quad adds four positions, four normals, four texture coordinates and six
triangle indices. The chunk manager keeps the list of loaded chunks and can
build a flat test terrain chunk. Start-up generates that chunk only when no
chunk is loaded.

The model is written in the source's own form:

- `Chunk`, `MeshBuffers` and `ChunkManager` are classes whose methods update
  their fields. The block buffer is an `array`.
- The mesher and the terrain fill are methods with nested `for` loops. Each is
  proved equal to a pure specification: `ExpectedMesh` for the mesher and
  `TestGrid` for the fill.
- The properties the design promises are lemmas about those specifications:
  - which faces are emitted, and that none is emitted twice;
  - how many quads some chunks produce;
  - the shape of each quad;
  - the winding of each triangle.

Modules:

- `VoxelTypes` (types.dfy): block identifiers, air and the chunk size.
- `VoxelChunk` (chunk.dfy): the index formula, the pure grid model
  `Get`/`Put`, and the `Chunk` class.
- `MeshSpec` (mesh_spec.dfy): the mesh value. It defines one quad
  (`AppendQuad`), the six faces with their corners and normals, the visibility
  rule, the sequence of emitted faces in loop order, and `ExpectedMesh`.
- `MeshProperties` (mesh_properties.dfy): shape, winding, membership and
  distinctness of the emitted faces.
- `Mesher` (mesher.dfy): the imperative mesher, proved against `ExpectedMesh`.
- `Manager` (manager.dfy): the chunk manager and the test terrain.
- `MeshCounts` (mesh_counts.dfy): the emitted-iff-open characterisation,
  index bounds, and quad counts for an empty chunk, a single block and two
  adjacent blocks.
- `TestTerrainMesh` (test_terrain.dfy): the test chunk meshes to 832 quads.

Coordinates are modelled as `int`, not as `f32`. The mesher computes each
vertex coordinate as the cell's local coordinate plus the chunk position times
16, plus 0 or 1. An `f32` holds every integer up to 2^24 exactly. While each
coordinate of the chunk position stays below 2^20 in magnitude, all of these
values stay within 2^24 (`CoordinatesExactInF32`), so the source's `f32` results
equal the model's integers. The corner and winding lemmas describe the
source's vertex positions within that range. Counts, indices, normals and UVs
do not depend on the position.

The `u32` cast of the base index is modelled by `AsU32`. `ExpectedMeshShape`
proves that a chunk mesh never has as many as 2^32 positions, so the cast
never truncates.

Two points where the code differs from its design description, and the model
follows the code:

- **Colour.** The mesh carries positions, normals, texture coordinates and
  indices. There is no per-vertex colour attribute, so none is modelled.
- **Winding.** The code does not wind every triangle counter-clockwise as seen
  from outside:
  - For the ±X faces, the cross product of a triangle's edges points along the
    face normal.
  - For the ±Y and ±Z faces, it points against the face normal.
  - `WindingPosX` … `WindingNegZ` and `MeshOfTriangleWindsWithNormal` /
    `MeshOfTriangleWindsAgainstNormal` prove exactly this.

## Model

| member | source | states |
|---|---|---|
| VoxelTypes.ChunkVolumeIs4096 | src/voxel/types.rs:4-5 | A chunk holds 16 × 16 × 16 = 4096 cells |
| VoxelChunk.Index | src/voxel/chunk.rs:19-21 | The flat index of an in-bounds cell is below the chunk volume |
| VoxelChunk.IndexFormula | src/voxel/chunk.rs:19-21 | The flat index is x + CHUNK_SIZE × (y + CHUNK_SIZE × z), x fastest |
| VoxelChunk.Coords | src/voxel/chunk.rs:19-21 | Every flat index below the volume comes from exactly one in-bounds cell, which `Index` maps back to it |
| VoxelChunk.CoordsOfIndex | src/voxel/chunk.rs:19-21 | Decoding the index of an in-bounds cell gives back its coordinates |
| VoxelChunk.IndexInjective | src/voxel/chunk.rs:19-21 | Distinct in-bounds cells have distinct flat indices |
| VoxelChunk.IndexAliasesPastRowEnd | src/voxel/chunk.rs:19-21 | x = 16 in row y is the same index as x = 0 in row y + 1, so the formula alone does not bounds-check |
| VoxelChunk.IndexAliasesPastLayerEnd | src/voxel/chunk.rs:19-21 | y = 16 in layer z is the same index as y = 0 in layer z + 1 |
| VoxelChunk.Get | src/voxel/chunk.rs:28-31 | Definition: the cell at the flat index; read-after-write is `GetPutSame` and `GetPutOther` |
| VoxelChunk.Put | src/voxel/chunk.rs:23-26 | Writing one cell keeps a grid a grid of 4096 cells |
| VoxelChunk.AirGrid | src/voxel/chunk.rs:13 | The initial block buffer is a full grid |
| VoxelChunk.AirGridIsAir | src/voxel/chunk.rs:11-16 | Every cell of a new chunk reads back as air |
| VoxelChunk.GetPutSame | src/voxel/chunk.rs:23-31 | Reading a cell after writing it returns the written id |
| VoxelChunk.GetPutOther | src/voxel/chunk.rs:23-31 | Writing one cell leaves every other in-bounds cell unchanged |
| VoxelChunk.Chunk.Cells | src/voxel/chunk.rs:4-8 | The chunk's buffer always holds exactly 4096 cells |
| VoxelChunk.Chunk.constructor | src/voxel/chunk.rs:11-16 | A new chunk has a fresh all-air buffer of 4096 cells and keeps the given position |
| VoxelChunk.Chunk.SetBlock | src/voxel/chunk.rs:23-26 | The buffer becomes `Put` of the old one: the cell holds the id and every other cell is unchanged |
| VoxelChunk.Chunk.GetBlock | src/voxel/chunk.rs:28-31 | Returns the grid model's cell at (x, y, z) |
| MeshSpec.AsU32 | src/voxel/mesher.rs:81 | The `as u32` cast gives a value below 2^32 and is the identity on values below 2^32 |
| MeshProperties.AppendQuadPreservesWellFormed | src/voxel/mesher.rs:15-52 | Pushing a quad at the current vertex count keeps the four attribute lists in step, and every six indices refer to their own four vertices in the pattern 0,1,2,2,3,0 |
| MeshProperties.MeshOfSizes | src/voxel/mesher.rs:29-50 | n quads give 4n positions, normals and UVs, and 6n indices |
| MeshSpec.AppendQuad | src/voxel/mesher.rs:15-52 | push_quad: each buffer grows by its 4 or 6 entries, and the six new indices lie in base_index .. base_index + 3 (contents: `EmitFaceAppends`, `AppendQuadPreservesWellFormed`) |
| MeshSpec.Normal | src/voxel/mesher.rs:72-146 | The six face normals, each a unit vector along one axis |
| MeshSpec.Corners | src/voxel/mesher.rs:72-146 | The six corner tables: four distinct corners of the unit cube at the base, all in the plane of the face |
| MeshSpec.WorldBase | src/voxel/mesher.rs:66-70 | Definition: local coordinate plus chunk position × 16 on each axis (range of exactness: `CoordinatesExactInF32`) |
| MeshProperties.CoordinatesExactInF32 | src/voxel/mesher.rs:66-79 | With each chunk-position coordinate below 2^20 in magnitude, the scaled position, the world base and every corner are integers of magnitude at most 2^24, exact in f32 |
| MeshSpec.Visible | src/voxel/mesher.rs:72-146 | Definition: the six bounds-then-air tests; characterised by `VisibleIffNeighbourOpen` |
| MeshSpec.EmittedFaces | src/voxel/mesher.rs:60-64 | Definition: the faces of the first k cells in z/y/x loop order, skipping air; characterised by `EmittedFacesMember` and `EmittedFacesDistinct` |
| MeshSpec.ExpectedMesh | src/voxel/mesher.rs:54-149 | Definition: the mesh built from all emitted faces; `GenerateMeshForChunk` is proved equal to it |
| MeshProperties.MeshOfWellFormed | src/voxel/mesher.rs:81-82 | Emitting faces one after another, each at the current vertex count, gives a well-formed mesh |
| MeshProperties.EmitFaceAppends | src/voxel/mesher.rs:81-82 | Emitting a face only appends: earlier vertices and indices are untouched |
| MeshProperties.MeshOfQuadCorners | src/voxel/mesher.rs:66-79 | Quad q's four positions are the corner table of its face, at the block's world base (local + position × 16) |
| MeshProperties.MeshOfQuadNormal | src/voxel/mesher.rs:34-37 | All four normals of quad q are the axis unit vector of its face |
| MeshProperties.WindingPosX | src/voxel/mesher.rs:75-80 | The edges of the +X face's first triangle cross to +X, its outward normal |
| MeshProperties.WindingNegX | src/voxel/mesher.rs:88-93 | The edges of the −X face's first triangle cross to −X, its outward normal |
| MeshProperties.WindingPosY | src/voxel/mesher.rs:101-106 | The edges of the +Y face's first triangle cross to −Y, against its normal |
| MeshProperties.WindingNegY | src/voxel/mesher.rs:114-118 | The edges of the −Y face's first triangle cross to +Y, against its normal |
| MeshProperties.WindingPosZ | src/voxel/mesher.rs:126-131 | The edges of the +Z face's first triangle cross to −Z, against its normal |
| MeshProperties.WindingNegZ | src/voxel/mesher.rs:139-143 | The edges of the −Z face's first triangle cross to +Z, against its normal |
| MeshProperties.FaceEdges | src/voxel/mesher.rs:72-146 | Wherever the cube sits, each face's first triangle (a, b, c) has the same two edges b − a and c − a |
| MeshProperties.EdgesCross | src/voxel/mesher.rs:72-146 | For every face, those edges cross to the face normal for ±X and to its negation for ±Y and ±Z |
| MeshProperties.ParallelogramWinding | src/voxel/mesher.rs:48-50 | In a parallelogram a, b, c, d the triangle c, d, a winds the same way as a, b, c |
| MeshProperties.CornersParallelogram | src/voxel/mesher.rs:75-142 | Every face's four corners form a parallelogram |
| MeshProperties.SecondTriangleWindsLikeFirst | src/voxel/mesher.rs:44-50 | Both triangles of a quad have the same winding |
| MeshProperties.QuadTriangleIndices | src/voxel/mesher.rs:44-50 | In a well-formed mesh, triangle t of quad q indexes vertices 4q + (0,1,2) or 4q + (2,3,0) |
| MeshProperties.QuadTriangleCorners | src/voxel/mesher.rs:44-50 | Those indices pick the quad's corners a, b, c and c, d, a, and the triangle's first vertex is vertex 4q + 2t |
| MeshProperties.FaceTrianglesOriented | src/voxel/mesher.rs:72-146 | Both triangles of every face have the same orientation: the face normal for ±X, its negation for ±Y and ±Z |
| MeshProperties.QuadTriangleOriented | src/voxel/mesher.rs:44-50 | In a well-formed mesh, when both triangles of a quad's corners have one orientation, each of the quad's two index triangles has it |
| MeshProperties.QuadTriangleWinding | src/voxel/mesher.rs:72-146 | A quad holding a face's corners and normal has triangles whose orientation equals the first vertex's normal for ±X and its negation otherwise |
| MeshProperties.MeshOfTriangleCorners | src/voxel/mesher.rs:44-50 | In an emitted mesh, triangle t of quad q is made of corners (a, b, c) or (c, d, a) of its face's corner table, and its first vertex carries the face normal |
| MeshProperties.MeshOfTriangleWindsWithNormal | src/voxel/mesher.rs:72-96 | Every emitted ±X triangle names existing vertices, and its edge cross product equals the normal at its first vertex |
| MeshProperties.MeshOfTriangleWindsAgainstNormal | src/voxel/mesher.rs:98-146 | Every emitted ±Y/±Z triangle names existing vertices, and its edge cross product is the negation of the normal at its first vertex |
| MeshProperties.VisibleIffNeighbourOpen | src/voxel/mesher.rs:73-74 | A face is visible iff its neighbour cell is outside the chunk or holds air, in all six directions |
| MeshProperties.FacesAlongMember | src/voxel/mesher.rs:72-146 | A cell's face is among those tested along a list of directions iff its direction is listed and it is visible |
| MeshProperties.FacesAlongDistinct | src/voxel/mesher.rs:72-146 | Testing distinct directions emits no face twice |
| MeshProperties.CellFacesMember | src/voxel/mesher.rs:63-146 | A face is emitted for cell (x, y, z) iff that cell is solid and the face is visible |
| MeshProperties.CellFacesAtIndex | src/voxel/mesher.rs:60-146 | The cell with flat index i emits face cf iff cf is exposed and its cell's index is i |
| MeshProperties.CellFacesDistinct | src/voxel/mesher.rs:72-146 | A cell emits each of its faces at most once |
| MeshProperties.CellFacesUnrolled | src/voxel/mesher.rs:72-146 | A solid cell tests its faces in the source's order +X, −X, +Y, −Y, +Z, −Z |
| MeshProperties.EmittedFacesMember | src/voxel/mesher.rs:60-64 | The faces emitted for the first k cells are exactly the exposed faces of the solid cells whose index is below k |
| MeshProperties.EmittedFacesSnoc | src/voxel/mesher.rs:60-64 | Visiting the cell with flat index j appends exactly that cell's faces to those of the cells before it |
| MeshProperties.EmittedFacesDistinct | src/voxel/mesher.rs:60-149 | No face is emitted twice |
| MeshProperties.EmittedFacesBound | src/voxel/mesher.rs:60-149 | The first k cells emit at most 6k faces |
| MeshProperties.EmittedFacesStep | src/voxel/mesher.rs:60-64 | Visiting the next cell in z, y, x order appends that cell's faces |
| Mesher.MeshBuffers.constructor | src/voxel/mesher.rs:55-58 | The four buffers start empty |
| Mesher.MeshBuffers.PushQuad | src/voxel/mesher.rs:15-52 | The buffers become the old mesh with one quad appended |
| Mesher.PushFaceIfVisible | src/voxel/mesher.rs:72-83 | Pushes the face's quad iff the neighbour test passes, keeping buffers equal to the mesh of the faces emitted so far |
| Mesher.PushCellQuads | src/voxel/mesher.rs:66-146 | The six face blocks of a solid cell append exactly that cell's visible faces |
| Mesher.PushRowQuads | src/voxel/mesher.rs:62-147 | The x loop over one row appends exactly the faces of that row's cells |
| Mesher.VisitCell | src/voxel/mesher.rs:63-146 | One x step skips an air cell and otherwise appends exactly its visible faces, so the buffers stay the mesh of the faces of all cells visited |
| Mesher.PushLayerQuads | src/voxel/mesher.rs:61-148 | The y loop over one layer appends exactly the faces of that layer's cells |
| Mesher.GenerateMeshForChunk | src/voxel/mesher.rs:54-149 | The mesh returned equals `ExpectedMesh` of the chunk's cells and position |
| Manager.TestBlock | src/voxel/manager.rs:17-23 | The test terrain holds id 2 below y = 4, id 1 at y = 4 and air above |
| Manager.TestGrid | src/voxel/manager.rs:14-26 | The test terrain is a full grid |
| Manager.TestGridLayers | src/voxel/manager.rs:14-26 | Every cell of the test grid holds `TestBlock` of its height, whatever x and z |
| Manager.ChunkManager.constructor | src/voxel/manager.rs:4-7 | The default manager has no chunks |
| Manager.ChunkManager.GenerateTestChunk | src/voxel/manager.rs:10-29 | Appends one fresh chunk at the origin whose cells are the test grid; earlier chunks stay in place |
| Manager.ChunkManager.EnsureChunk | src/voxel/render.rs:14-16 | Afterwards at least one chunk is loaded; an existing list is left alone, and an empty one gets exactly the test chunk |
| Manager.FillTestLayer | src/voxel/manager.rs:15-25 | The y loop extends by one layer the prefix of the chunk that matches the test grid |
| Manager.FillTestRow | src/voxel/manager.rs:16-24 | The x loop extends by one row the prefix of the chunk that matches the test grid |
| Manager.FillStep | src/voxel/manager.rs:17-23 | Writing the test block at the next cell in loop order extends that prefix by one cell |
| MeshCounts.IndicesInRange | src/voxel/mesher.rs:44-50 | In a well-formed mesh every index names an existing vertex |
| MeshCounts.ExpectedMeshShape | src/voxel/mesher.rs:81 | A chunk mesh is well formed, has 4n vertices and 6n indices for n ≤ 6 × 4096 quads, and stays below 2^32 vertices |
| MeshCounts.EmittedIffOpen | src/voxel/mesher.rs:60-146 | A face is in the chunk mesh iff its cell is in bounds and solid and its neighbour is outside the chunk or air |
| MeshCounts.BoundaryFaceEmitted | src/voxel/mesher.rs:73-74 | A solid block on the chunk boundary always shows its outward face there |
| MeshCounts.LastColumnShowsPosX | src/voxel/mesher.rs:73-74 | A solid block at x = 15 always shows its +X face |
| MeshCounts.HiddenFaceNotEmitted | src/voxel/mesher.rs:72-146 | A face whose neighbour inside the chunk is solid is not emitted |
| MeshCounts.AirGridEmitsNothing | src/voxel/mesher.rs:63-64 | An all-air grid emits no face for any prefix of its cells |
| MeshCounts.AirChunkMeshIsEmpty | src/voxel/mesher.rs:63-64 | A new, all-air chunk meshes to the empty mesh |
| MeshCounts.SingleBlockEmits | src/voxel/mesher.rs:72-146 | A lone solid block emits exactly its six faces |
| MeshCounts.SingleBlockSixQuads | src/voxel/mesher.rs:54-149 | A lone solid block gives 6 quads: 24 vertices and 36 indices |
| MeshCounts.PairEmits | src/voxel/mesher.rs:72-146 | Two x-adjacent solid blocks emit exactly their ten outer faces |
| MeshCounts.AdjacentBlocksTenQuads | src/voxel/mesher.rs:54-149 | Two x-adjacent solid blocks give 10 quads: 40 vertices and 60 indices |
| TestTerrainMesh.TestGridLayered | src/voxel/manager.rs:14-26 | The manager's grid has the same layers in every column |
| TestTerrainMesh.TestVisibility | src/voxel/mesher.rs:72-146 | In the test terrain a solid cell shows ±X only at x = 15/0, ±Z only at z = 15/0, top only at y = 4 and bottom only at y = 0 |
| TestTerrainMesh.SolidCellFaceCount | src/voxel/mesher.rs:72-146 | A solid cell emits one face per visible direction, so its count is the number of visible directions |
| TestTerrainMesh.TestCellFaces | src/voxel/mesher.rs:63-146 | Each cell of the test terrain emits the number of faces it borders on the outside |
| TestTerrainMesh.RowFaces | src/voxel/mesher.rs:62-147 | The cells of a test-terrain row emit the closed-form row count |
| TestTerrainMesh.LayerFaces | src/voxel/mesher.rs:61-148 | The rows of a test-terrain layer emit the closed-form layer count |
| TestTerrainMesh.ChunkFaces | src/voxel/mesher.rs:60-149 | The layers of the test terrain emit 42 faces per layer plus 80 per outer layer |
| TestTerrainMesh.LayeredChunkQuads | src/voxel/mesher.rs:54-149 | Any chunk with the test terrain's layers meshes to 832 quads: 3328 vertices and 4992 indices |
| TestTerrainMesh.TestChunkQuads | src/voxel/manager.rs:10-29 | The chunk the manager builds meshes to 832 quads: 3328 vertices and 4992 indices |

## Left out

- Building the Bevy `Mesh` from the four buffers (mesher.rs:151-163) is a foreign call into the engine. The model's mesh is the four buffers themselves.
- The render system around the start-up guard, and the plugin, player, camera, setup and application entry, are not part of this model. Only the `is_empty` guard of render.rs is modelled, as `EnsureChunk`.
- Coordinates, normals and UVs are `f32` in the source and integers here. Normals and UVs are 0, 1 or −1 and are exact. Vertex coordinates match the source only while the chunk position is below 2^20 in magnitude on every axis (`CoordinatesExactInF32`). Beyond that range `f32` rounding is not modelled: at position x = 2^21, cell x = 1 and its +X corner both round to 2^25 in the source, so that quad has zero width, while the model gives 2^25 + 1 and 2^25 + 2.
- Per-vertex colour: the code builds no colour attribute. No colour is modelled, and no colour-propagation property is stated.
- VoxelChunk.Chunk.SetBlock: requires each coordinate below 16. The source only panics when the flat index is out of range, and indices such as (16, y, z) alias another cell (`IndexAliasesPastRowEnd`). No caller in the core passes such coordinates.
- VoxelChunk.Chunk.GetBlock: requires each coordinate below 16, for the same reason as `SetBlock`. The mesher reads a neighbour only after its bounds test.
- Mesher.PushFaceIfVisible: one generic member stands for the six hand-written face blocks. Each face's own corner table and normal are kept in `Corners` and `Normal`.
- Manager.ChunkManager.GenerateTestChunk: it states that the earlier chunks are the same objects. That their blocks are unchanged follows from the method's frame, which only reaches the new chunk's buffer.
- The `Resource`/`Default` derivations and Bevy's scheduling of systems are left out. `ChunkManager`'s constructor plays the role of `Default`.
