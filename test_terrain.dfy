/**
 * The mesh of the flat test terrain: 256 top faces, 256 bottom faces and
 * 80 faces on each of the four sides, 832 quads in all.
 */
module TestTerrainMesh {
  import opened VoxelTypes
  import opened VoxelChunk
  import opened MeshSpec
  import opened MeshProperties
  import opened Manager

  function Ind(b: bool): nat {
    if b then 1 else 0
  }

  /** Cell (x, y, z) holds the test terrain's block for its height. */
  ghost predicate LayeredAt(cells: seq<BlockId>, x: nat, y: nat, z: nat)
    requires IsGrid(cells) && InBounds(x, y, z)
  {
    Get(cells, x, y, z) == TestBlock(y)
  }

  /**
   * `cells` holds the test terrain: every column has the layers of
   * `TestBlock`. The trigger keeps the fact from firing on every read of
   * the grid; a proof asks for a cell by naming `LayeredAt` of it.
   */
  ghost predicate Layered(cells: seq<BlockId>) {
    IsGrid(cells) &&
    forall x: nat, y: nat, z: nat {:trigger LayeredAt(cells, x, y, z)} | InBounds(x, y, z) :: LayeredAt(cells, x, y, z)
  }

  /** The grid the manager fills is layered. */
  lemma TestGridLayered()
    ensures Layered(TestGrid())
  {
    forall x: nat, y: nat, z: nat | InBounds(x, y, z)
      ensures LayeredAt(TestGrid(), x, y, z)
    {
      TestGridLayers(x, y, z);
    }
  }

  /** How many faces a cell of the test terrain shows. */
  function TestCellCount(x: nat, y: nat, z: nat): nat {
    if y > 4 then 0
    else Ind(x == 0) + Ind(x == CHUNK_SIZE - 1) + Ind(y == 0) + Ind(y == 4) + Ind(z == 0) + Ind(z == CHUNK_SIZE - 1)
  }

  /** A face's contribution to a cell's count: one when it is visible. */
  lemma FaceIfVisibleLength(cells: seq<BlockId>, x: nat, y: nat, z: nat, f: Face)
    requires IsGrid(cells) && InBounds(x, y, z)
    ensures |FaceIfVisible(cells, x, y, z, f)| == Ind(Visible(cells, x, y, z, f))
  {
  }

  /**
   * In the test terrain a solid cell shows its side faces only on the
   * chunk's boundary, its top only at y = 4 and its bottom only at y = 0.
   */
  lemma TestVisibility(cells: seq<BlockId>, x: nat, y: nat, z: nat)
    requires Layered(cells) && InBounds(x, y, z) && y <= 4
    ensures Visible(cells, x, y, z, PosX) <==> x == CHUNK_SIZE - 1
    ensures Visible(cells, x, y, z, NegX) <==> x == 0
    ensures Visible(cells, x, y, z, PosY) <==> y == 4
    ensures Visible(cells, x, y, z, NegY) <==> y == 0
    ensures Visible(cells, x, y, z, PosZ) <==> z == CHUNK_SIZE - 1
    ensures Visible(cells, x, y, z, NegZ) <==> z == 0
  {
    assert LayeredAt(cells, x, y, z);
    if x + 1 < CHUNK_SIZE { assert LayeredAt(cells, x + 1, y, z); }
    if x > 0 { assert LayeredAt(cells, x - 1, y, z); }
    assert LayeredAt(cells, x, y + 1, z);
    if y > 0 { assert LayeredAt(cells, x, y - 1, z); }
    if z + 1 < CHUNK_SIZE { assert LayeredAt(cells, x, y, z + 1); }
    if z > 0 { assert LayeredAt(cells, x, y, z - 1); }
  }

  /** A solid cell shows one face per visible direction. */
  lemma SolidCellFaceCount(cells: seq<BlockId>, x: nat, y: nat, z: nat)
    requires IsGrid(cells) && InBounds(x, y, z) && Get(cells, x, y, z) != AIR
    ensures |CellFaces(cells, x, y, z)| ==
      Ind(Visible(cells, x, y, z, PosX)) + Ind(Visible(cells, x, y, z, NegX)) +
      Ind(Visible(cells, x, y, z, PosY)) + Ind(Visible(cells, x, y, z, NegY)) +
      Ind(Visible(cells, x, y, z, PosZ)) + Ind(Visible(cells, x, y, z, NegZ))
  {
    CellFacesUnrolled(cells, x, y, z);
    FaceIfVisibleLength(cells, x, y, z, PosX);
    FaceIfVisibleLength(cells, x, y, z, NegX);
    FaceIfVisibleLength(cells, x, y, z, PosY);
    FaceIfVisibleLength(cells, x, y, z, NegY);
    FaceIfVisibleLength(cells, x, y, z, PosZ);
    FaceIfVisibleLength(cells, x, y, z, NegZ);
  }

  /** Each cell of the test terrain shows `TestCellCount` faces. */
  lemma TestCellFaces(cells: seq<BlockId>, x: nat, y: nat, z: nat)
    requires Layered(cells) && InBounds(x, y, z)
    ensures |CellFaces(cells, x, y, z)| == TestCellCount(x, y, z)
  {
    assert LayeredAt(cells, x, y, z);
    if y <= 4 {
      SolidCellFaceCount(cells, x, y, z);
      TestVisibility(cells, x, y, z);
    }
  }

  /**
   * The faces shown by cells 0 .. x - 1 of row (y, z): each solid cell shows
   * its bottom on row y = 0, its top on row y = 4, its front on layer z = 0
   * and its back on layer z = 15; the row's end faces at x = 0 and x = 15
   * come on top.
   */
  function RowCount(x: nat, y: nat, z: nat): nat {
    if y > 4 then 0
    else
      (if y == 0 then x else 0) + (if y == 4 then x else 0) +
      (if z == 0 then x else 0) + (if z == CHUNK_SIZE - 1 then x else 0) +
      Ind(x > 0) + Ind(x == CHUNK_SIZE)
  }

  /**
   * The faces shown by rows 0 .. y - 1 of layer z, where `s` is 1 on the
   * outer layers z = 0 and z = 15 and 0 elsewhere: the bottom row shows 16
   * faces underneath, the row y = 4 shows 16 on top, each solid row shows
   * its two end faces, and on an outer layer 16 more per solid row.
   */
  function LayerCount(y: nat, s: nat): nat {
    if y == 0 then 0
    else if y == 1 then 16 * s + 18
    else if y == 2 then 32 * s + 20
    else if y == 3 then 48 * s + 22
    else if y == 4 then 64 * s + 24
    else 80 * s + 42
  }

  /** The faces shown by layers 0 .. z - 1: 42 per layer, plus 80 for each outer layer. */
  function ChunkCount(z: nat): nat {
    if z == 0 then 0 else if z < CHUNK_SIZE then 42 * z + 80 else 42 * z + 160
  }

  /** The cells of a row before x show `RowCount` faces. */
  lemma {:induction false} RowFaces(cells: seq<BlockId>, x: nat, y: nat, z: nat)
    requires Layered(cells) && x <= CHUNK_SIZE && y < CHUNK_SIZE && z < CHUNK_SIZE
    ensures Index(x, y, z) <= CHUNK_VOLUME
    ensures |EmittedFaces(cells, Index(x, y, z))| == |EmittedFaces(cells, Index(0, y, z))| + RowCount(x, y, z)
  {
    if x == 0 {
      assert Index(0, y, z) < Index(CHUNK_SIZE - 1, y, z) < CHUNK_VOLUME;
    } else {
      var w: nat := x - 1;
      RowFaces(cells, w, y, z);
      assert Index(x, y, z) <= CHUNK_VOLUME &&
        |EmittedFaces(cells, Index(x, y, z))| == |EmittedFaces(cells, Index(w, y, z))| + TestCellCount(w, y, z) by {
        EmittedFacesLengthStep(cells, w, y, z);
        TestCellFaces(cells, w, y, z);
      }
      RowCountStep(w, y, z);
    }
  }

  /** Adding cell x of a row to the cells before it. */
  lemma RowCountStep(x: nat, y: nat, z: nat)
    requires x < CHUNK_SIZE
    ensures RowCount(x + 1, y, z) == RowCount(x, y, z) + TestCellCount(x, y, z)
  {
  }

  /** The rows of a layer before y show `LayerCount` faces. */
  lemma {:induction false} LayerFaces(cells: seq<BlockId>, y: nat, z: nat)
    requires Layered(cells) && y <= CHUNK_SIZE && z < CHUNK_SIZE
    ensures Index(0, y, z) <= CHUNK_VOLUME
    ensures |EmittedFaces(cells, Index(0, y, z))| ==
      |EmittedFaces(cells, Index(0, 0, z))| + LayerCount(y, Ind(z == 0) + Ind(z == CHUNK_SIZE - 1))
  {
    if y == 0 {
      assert Index(0, 0, z) < Index(CHUNK_SIZE - 1, 0, z) < CHUNK_VOLUME;
    } else {
      var w: nat := y - 1;
      LayerFaces(cells, w, z);
      assert Index(0, y, z) <= CHUNK_VOLUME &&
        |EmittedFaces(cells, Index(0, y, z))| == |EmittedFaces(cells, Index(0, w, z))| + RowCount(CHUNK_SIZE, w, z) by {
        RowFaces(cells, CHUNK_SIZE, w, z);
        IndexAliasesPastRowEnd(w, z);
      }
      LayerCountStep(w, z);
    }
  }

  /** Adding row y of layer z to the rows below it. */
  lemma LayerCountStep(y: nat, z: nat)
    requires y < CHUNK_SIZE
    ensures var s := Ind(z == 0) + Ind(z == CHUNK_SIZE - 1);
      LayerCount(y + 1, s) == LayerCount(y, s) + RowCount(CHUNK_SIZE, y, z)
  {
  }

  /** The layers before z show `ChunkCount` faces. */
  lemma {:induction false} ChunkFaces(cells: seq<BlockId>, z: nat)
    requires Layered(cells) && z <= CHUNK_SIZE
    ensures Index(0, 0, z) <= CHUNK_VOLUME
    ensures |EmittedFaces(cells, Index(0, 0, z))| == ChunkCount(z)
  {
    if z > 0 {
      var w: nat := z - 1;
      ChunkFaces(cells, w);
      assert Index(0, 0, z) <= CHUNK_VOLUME &&
        |EmittedFaces(cells, Index(0, 0, z))| ==
        |EmittedFaces(cells, Index(0, 0, w))| + LayerCount(CHUNK_SIZE, Ind(w == 0) + Ind(w == CHUNK_SIZE - 1)) by {
        LayerFaces(cells, CHUNK_SIZE, w);
        IndexAliasesPastLayerEnd(w);
      }
      ChunkCountStep(w);
    }
  }

  /** Adding layer z to the layers before it. */
  lemma ChunkCountStep(z: nat)
    requires z < CHUNK_SIZE
    ensures ChunkCount(z + 1) == ChunkCount(z) + LayerCount(CHUNK_SIZE, Ind(z == 0) + Ind(z == CHUNK_SIZE - 1))
  {
  }

  /** Every layered chunk meshes to 832 quads: 3328 vertices and 4992 indices. */
  lemma LayeredChunkQuads(cells: seq<BlockId>, position: Int3)
    requires Layered(cells)
    ensures var m := ExpectedMesh(cells, position);
      && |EmittedFaces(cells, CHUNK_VOLUME)| == 832
      && |m.positions| == 3328 && |m.indices| == 4992
  {
    ChunkFaces(cells, CHUNK_SIZE);
    assert Index(0, 0, CHUNK_SIZE) == CHUNK_VOLUME;
    MeshOfSizes(EmittedFaces(cells, CHUNK_VOLUME), position);
  }

  /** Meshing the test chunk the manager builds gives 832 quads: 3328 vertices and 4992 indices. */
  lemma TestChunkQuads(position: Int3)
    ensures var m := ExpectedMesh(TestGrid(), position);
      && |EmittedFaces(TestGrid(), CHUNK_VOLUME)| == 832
      && |m.positions| == 3328 && |m.indices| == 4992
  {
    TestGridLayered();
    LayeredChunkQuads(TestGrid(), position);
  }
}
