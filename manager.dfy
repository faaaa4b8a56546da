/** The chunk manager: the list of loaded chunks and the flat test terrain. */
module Manager {
  import opened VoxelTypes
  import opened VoxelChunk

  /** The test terrain's block at height y: id 2 below y = 4, id 1 at y = 4, air above. */
  function TestBlock(y: nat): (id: BlockId)
    ensures y < 4 ==> id == 2
    ensures y == 4 ==> id == 1
    ensures y > 4 ==> IsAir(id)
  {
    if y < 4 then 2 else if y == 4 then 1 else AIR
  }

  /** The grid of the test chunk, cell by flat index. */
  function TestGrid(): (cells: seq<BlockId>)
    ensures IsGrid(cells)
  {
    seq(CHUNK_VOLUME, i requires 0 <= i < CHUNK_VOLUME => TestBlock(Coords(i).y))
  }

  /** Every column of the test grid holds the same layers, whatever x and z. */
  lemma TestGridLayers(x: nat, y: nat, z: nat)
    requires InBounds(x, y, z)
    ensures Get(TestGrid(), x, y, z) == TestBlock(y)
  {
    CoordsOfIndex(x, y, z);
  }

  class ChunkManager {
    var chunks: seq<Chunk>

    /** An empty manager, as the resource's default value. */
    constructor ()
      ensures chunks == []
    {
      chunks := [];
    }

    /**
     * Builds a chunk at the origin filled with the test terrain and appends it;
     * the chunks already present stay as they were.
     */
    method GenerateTestChunk()
      modifies this
      ensures |chunks| == |old(chunks)| + 1
      ensures chunks[..|old(chunks)|] == old(chunks)
      ensures var c := chunks[|old(chunks)|];
        fresh(c) && fresh(c.blocks) && c.Valid() && c.position == Int3(0, 0, 0) && c.Cells() == TestGrid()
    {
      var c := new Chunk(Int3(0, 0, 0));
      for z := 0 to CHUNK_SIZE
        invariant c.Valid() && fresh(c.blocks) && c.position == Int3(0, 0, 0)
        invariant chunks == old(chunks)
        invariant Index(0, 0, z) <= CHUNK_VOLUME
        invariant c.Cells()[..Index(0, 0, z)] == TestGrid()[..Index(0, 0, z)]
      {
        FillTestLayer(c, z);
      }
      chunks := chunks + [c];
    }

    /** Generates the test chunk only when no chunk is loaded yet. */
    method EnsureChunk()
      modifies this
      ensures chunks != []
      ensures old(chunks) != [] ==> chunks == old(chunks)
      ensures old(chunks) == [] ==>
        |chunks| == 1 && fresh(chunks[0]) && chunks[0].Valid() &&
        chunks[0].position == Int3(0, 0, 0) && chunks[0].Cells() == TestGrid()
    {
      if chunks == [] {
        GenerateTestChunk();
      }
    }
  }

  /** The y loop of the test terrain fill, for one layer of the chunk. */
  method FillTestLayer(c: Chunk, z: nat)
    requires c.Valid() && z < CHUNK_SIZE
    requires c.Cells()[..Index(0, 0, z)] == TestGrid()[..Index(0, 0, z)]
    modifies c.blocks
    ensures c.Valid() && Index(0, 0, z + 1) <= CHUNK_VOLUME
    ensures c.Cells()[..Index(0, 0, z + 1)] == TestGrid()[..Index(0, 0, z + 1)]
  {
    for y := 0 to CHUNK_SIZE
      invariant c.Valid()
      invariant Index(0, y, z) <= CHUNK_VOLUME
      invariant c.Cells()[..Index(0, y, z)] == TestGrid()[..Index(0, y, z)]
    {
      FillTestRow(c, y, z);
    }
    IndexAliasesPastLayerEnd(z);
  }

  /** The x loop of the test terrain fill, for one row of the chunk. */
  method FillTestRow(c: Chunk, y: nat, z: nat)
    requires c.Valid() && y < CHUNK_SIZE && z < CHUNK_SIZE
    requires c.Cells()[..Index(0, y, z)] == TestGrid()[..Index(0, y, z)]
    modifies c.blocks
    ensures c.Valid() && Index(0, y + 1, z) <= CHUNK_VOLUME
    ensures c.Cells()[..Index(0, y + 1, z)] == TestGrid()[..Index(0, y + 1, z)]
  {
    for x := 0 to CHUNK_SIZE
      invariant c.Valid()
      invariant Index(x, y, z) <= CHUNK_VOLUME
      invariant c.Cells()[..Index(x, y, z)] == TestGrid()[..Index(x, y, z)]
    {
      FillStep(c.Cells(), x, y, z);
      if y < 4 {
        c.SetBlock(x, y, z, 2);
      } else if y == 4 {
        c.SetBlock(x, y, z, 1);
      } else {
        c.SetBlock(x, y, z, AIR);
      }
    }
    IndexAliasesPastRowEnd(y, z);
  }

  /**
   * Writing the test block at the next cell in loop order extends the prefix
   * of the grid that already matches the test terrain by one cell.
   */
  lemma FillStep(cells: seq<BlockId>, x: nat, y: nat, z: nat)
    requires IsGrid(cells) && InBounds(x, y, z)
    requires cells[..Index(x, y, z)] == TestGrid()[..Index(x, y, z)]
    ensures Index(x + 1, y, z) == Index(x, y, z) + 1 <= CHUNK_VOLUME
    ensures var k := Index(x, y, z);
      Put(cells, x, y, z, TestBlock(y))[..k + 1] == TestGrid()[..k + 1]
  {
    var k := Index(x, y, z);
    TestGridLayers(x, y, z);
    var r := Put(cells, x, y, z, TestBlock(y));
    assert r[..k + 1] == cells[..k] + [TestBlock(y)];
    assert TestGrid()[..k + 1] == TestGrid()[..k] + [TestGrid()[k]];
  }
}
