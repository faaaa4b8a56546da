/** The mesher: the buffers `push_quad` appends to and the culled-face loop over a chunk. */
module Mesher {
  import opened VoxelTypes
  import opened VoxelChunk
  import opened MeshSpec
  import opened MeshProperties

  /** The four growable buffers the mesher fills: positions, normals, UVs and indices. */
  class MeshBuffers {
    var positions: seq<Int3>
    var normals: seq<Int3>
    var uvs: seq<Uv>
    var indices: seq<int>

    /** The buffers' current contents as a value. */
    function Contents(): ChunkMesh
      reads this
    {
      ChunkMesh(positions, normals, uvs, indices)
    }

    /** Four empty buffers. */
    constructor ()
      ensures Contents() == EmptyMesh
    {
      positions, normals, uvs, indices := [], [], [], [];
    }

    /** Appends one quad in place: four corners, four normals, four UVs and two triangles. */
    method PushQuad(baseIndex: nat, a: Int3, b: Int3, c: Int3, d: Int3, normal: Int3, uv00: Uv, uv11: Uv)
      modifies this
      ensures Contents() == AppendQuad(old(Contents()), baseIndex, a, b, c, d, normal, uv00, uv11)
    {
      positions := positions + [a, b, c, d];
      normals := normals + [normal, normal, normal, normal];
      uvs := uvs + [Uv(uv00.u, uv00.v), Uv(uv11.u, uv00.v), Uv(uv11.u, uv11.v), Uv(uv00.u, uv11.v)];
      indices := indices + [baseIndex + 0, baseIndex + 1, baseIndex + 2, baseIndex + 2, baseIndex + 3, baseIndex + 0];
    }
  }

  /** Emitting one more face extends the mesh by that face's quad. */
  lemma MeshOfSnoc(faces: seq<CellFace>, cf: CellFace, position: Int3)
    ensures MeshOf(faces + [cf], position) == EmitFace(MeshOf(faces, position), cf, position)
  {
    assert (faces + [cf])[..|faces|] == faces;
  }

  /**
   * One of the six face tests of the mesher's loop body: when the neighbour
   * across face `f` lies outside the chunk (tested first, so nothing outside
   * is read) or holds air, push that face's quad based at the current vertex
   * count.
   */
  method PushFaceIfVisible(chunk: Chunk, buffers: MeshBuffers, x: nat, y: nat, z: nat, base: Int3, f: Face,
                           ghost cells: seq<BlockId>, ghost faces: seq<CellFace>)
    returns (ghost faces': seq<CellFace>)
    requires chunk.Valid() && cells == chunk.Cells()
    requires InBounds(x, y, z) && base == WorldBase(x, y, z, chunk.position)
    requires buffers.Contents() == MeshOf(faces, chunk.position) && |faces| < 0x1000_0000
    modifies buffers
    ensures faces' == faces + FaceIfVisible(cells, x, y, z, f) && |faces'| <= |faces| + 1
    ensures buffers.Contents() == MeshOf(faces', chunk.position)
  {
    var visible := match f
      case PosX => var nx: int := x + 1; nx >= CHUNK_SIZE || chunk.GetBlock(nx, y, z) == AIR
      case NegX => var nx: int := x - 1; nx < 0 || chunk.GetBlock(nx, y, z) == AIR
      case PosY => var ny: int := y + 1; ny >= CHUNK_SIZE || chunk.GetBlock(x, ny, z) == AIR
      case NegY => var ny: int := y - 1; ny < 0 || chunk.GetBlock(x, ny, z) == AIR
      case PosZ => var nz: int := z + 1; nz >= CHUNK_SIZE || chunk.GetBlock(x, y, nz) == AIR
      case NegZ => var nz: int := z - 1; nz < 0 || chunk.GetBlock(x, y, nz) == AIR;
    assert visible == Visible(cells, x, y, z, f);
    faces' := faces;
    if visible {
      MeshOfSizes(faces, chunk.position);
      var cs := Corners(f, base);
      var baseIndex := AsU32(|buffers.positions|);
      buffers.PushQuad(baseIndex, cs[0], cs[1], cs[2], cs[3], Normal(f), Uv(0, 0), Uv(1, 1));
      MeshOfSnoc(faces, CellFace(x, y, z, f), chunk.position);
      faces' := faces + [CellFace(x, y, z, f)];
    }
  }

  /** Regrouping six appends to the right. */
  lemma AppendSix<T>(s: seq<T>, a: seq<T>, b: seq<T>, c: seq<T>, d: seq<T>, e: seq<T>, f: seq<T>)
    ensures s + a + b + c + d + e + f == s + (a + (b + (c + (d + (e + f)))))
  {
  }

  /** The loop body for one solid cell: the six face tests in the mesher's order. */
  method PushCellQuads(chunk: Chunk, buffers: MeshBuffers, x: nat, y: nat, z: nat,
                       ghost cells: seq<BlockId>, ghost faces: seq<CellFace>)
    returns (ghost faces': seq<CellFace>)
    requires chunk.Valid() && cells == chunk.Cells()
    requires InBounds(x, y, z) && Get(cells, x, y, z) != AIR
    requires buffers.Contents() == MeshOf(faces, chunk.position) && |faces| <= 6 * CHUNK_VOLUME
    modifies buffers
    ensures faces' == faces + CellFaces(cells, x, y, z)
    ensures buffers.Contents() == MeshOf(faces', chunk.position)
  {
    ChunkVolumeIs4096();
    var base := Int3(x + chunk.position.x * CHUNK_SIZE,
                     y + chunk.position.y * CHUNK_SIZE,
                     z + chunk.position.z * CHUNK_SIZE);
    ghost var f1 := PushFaceIfVisible(chunk, buffers, x, y, z, base, PosX, cells, faces);
    ghost var f2 := PushFaceIfVisible(chunk, buffers, x, y, z, base, NegX, cells, f1);
    ghost var f3 := PushFaceIfVisible(chunk, buffers, x, y, z, base, PosY, cells, f2);
    ghost var f4 := PushFaceIfVisible(chunk, buffers, x, y, z, base, NegY, cells, f3);
    ghost var f5 := PushFaceIfVisible(chunk, buffers, x, y, z, base, PosZ, cells, f4);
    faces' := PushFaceIfVisible(chunk, buffers, x, y, z, base, NegZ, cells, f5);
    CellFacesUnrolled(cells, x, y, z);
    AppendSix(faces, FaceIfVisible(cells, x, y, z, PosX), FaceIfVisible(cells, x, y, z, NegX),
      FaceIfVisible(cells, x, y, z, PosY), FaceIfVisible(cells, x, y, z, NegY),
      FaceIfVisible(cells, x, y, z, PosZ), FaceIfVisible(cells, x, y, z, NegZ));
  }

  /** One row of the chunk: the x loop of the mesher for fixed y and z. */
  method PushRowQuads(chunk: Chunk, buffers: MeshBuffers, y: nat, z: nat,
                      ghost cells: seq<BlockId>, ghost faces: seq<CellFace>)
    returns (ghost faces': seq<CellFace>)
    requires chunk.Valid() && cells == chunk.Cells()
    requires y < CHUNK_SIZE && z < CHUNK_SIZE
    requires faces == EmittedFaces(cells, Index(0, y, z))
    requires buffers.Contents() == MeshOf(faces, chunk.position)
    modifies buffers
    ensures faces' == EmittedFaces(cells, Index(0, y + 1, z))
    ensures buffers.Contents() == MeshOf(faces', chunk.position)
  {
    faces' := faces;
    for x := 0 to CHUNK_SIZE
      invariant chunk.Cells() == cells
      invariant Index(x, y, z) <= CHUNK_VOLUME
      invariant faces' == EmittedFaces(cells, Index(x, y, z))
      invariant buffers.Contents() == MeshOf(faces', chunk.position)
    {
      faces' := VisitCell(chunk, buffers, x, y, z, cells, faces');
    }
    IndexAliasesPastRowEnd(y, z);
  }

  /** The body of the x loop: skip air, otherwise push the cell's visible faces. */
  method VisitCell(chunk: Chunk, buffers: MeshBuffers, x: nat, y: nat, z: nat,
                   ghost cells: seq<BlockId>, ghost faces: seq<CellFace>)
    returns (ghost faces': seq<CellFace>)
    requires chunk.Valid() && cells == chunk.Cells() && InBounds(x, y, z)
    requires faces == EmittedFaces(cells, Index(x, y, z))
    requires buffers.Contents() == MeshOf(faces, chunk.position)
    modifies buffers
    ensures Index(x + 1, y, z) <= CHUNK_VOLUME
    ensures faces' == EmittedFaces(cells, Index(x + 1, y, z))
    ensures buffers.Contents() == MeshOf(faces', chunk.position)
  {
    EmittedFacesStep(cells, x, y, z);
    assert Index(x + 1, y, z) == Index(x, y, z) + 1;
    faces' := faces;
    var id := chunk.GetBlock(x, y, z);
    if id == AIR {
      assert CellFaces(cells, x, y, z) == [];
      return;
    }
    faces' := PushCellQuads(chunk, buffers, x, y, z, cells, faces);
  }

  /**
   * Builds the mesh of a chunk: visits the cells in z, y, x order, skips air,
   * and runs the six face tests on every solid cell.
   */
  method GenerateMeshForChunk(chunk: Chunk) returns (mesh: ChunkMesh)
    requires chunk.Valid()
    ensures mesh == ExpectedMesh(chunk.Cells(), chunk.position)
  {
    ghost var cells := chunk.Cells();
    var buffers := new MeshBuffers();
    ghost var faces: seq<CellFace> := [];
    for z := 0 to CHUNK_SIZE
      invariant chunk.Cells() == cells
      invariant Index(0, 0, z) <= CHUNK_VOLUME
      invariant faces == EmittedFaces(cells, Index(0, 0, z))
      invariant buffers.Contents() == MeshOf(faces, chunk.position)
    {
      faces := PushLayerQuads(chunk, buffers, z, cells, faces);
    }
    mesh := buffers.Contents();
  }

  /** One layer of the chunk: the y loop of the mesher for fixed z. */
  method PushLayerQuads(chunk: Chunk, buffers: MeshBuffers, z: nat,
                        ghost cells: seq<BlockId>, ghost faces: seq<CellFace>)
    returns (ghost faces': seq<CellFace>)
    requires chunk.Valid() && cells == chunk.Cells() && z < CHUNK_SIZE
    requires faces == EmittedFaces(cells, Index(0, 0, z))
    requires buffers.Contents() == MeshOf(faces, chunk.position)
    modifies buffers
    ensures Index(0, 0, z + 1) <= CHUNK_VOLUME
    ensures faces' == EmittedFaces(cells, Index(0, 0, z + 1))
    ensures buffers.Contents() == MeshOf(faces', chunk.position)
  {
    faces' := faces;
    for y := 0 to CHUNK_SIZE
      invariant chunk.Cells() == cells
      invariant Index(0, y, z) <= CHUNK_VOLUME
      invariant faces' == EmittedFaces(cells, Index(0, y, z))
      invariant buffers.Contents() == MeshOf(faces', chunk.position)
    {
      faces' := PushRowQuads(chunk, buffers, y, z, cells, faces');
    }
    IndexAliasesPastLayerEnd(z);
  }
}
