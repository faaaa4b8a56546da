/** The chunk grid: a flat array of block identifiers addressed by `Index`. */
module VoxelChunk {
  import opened VoxelTypes

  /** A local coordinate lies inside the chunk on every axis. */
  predicate InBounds(x: int, y: int, z: int) {
    0 <= x < CHUNK_SIZE && 0 <= y < CHUNK_SIZE && 0 <= z < CHUNK_SIZE
  }

  /**
   * The flat index of a local coordinate, x-minor then y then z, written with
   * CHUNK_SIZE = 16 unfolded (`IndexFormula` states it with CHUNK_SIZE). Like
   * the unchecked arithmetic it models, it is defined for every coordinate;
   * only in-bounds coordinates are guaranteed to land inside the chunk.
   */
  function Index(x: nat, y: nat, z: nat): (i: nat)
    ensures InBounds(x, y, z) ==> i < CHUNK_VOLUME
  {
    x + 16 * (y + 16 * z)
  }

  /** The index is x + CHUNK_SIZE * (y + CHUNK_SIZE * z). */
  lemma IndexFormula(x: nat, y: nat, z: nat)
    ensures Index(x, y, z) == x + CHUNK_SIZE * (y + CHUNK_SIZE * z)
  {
  }

  /** The coordinate stored at flat index `i`: the inverse of `Index`. */
  function Coords(i: nat): (c: Int3)
    requires i < CHUNK_VOLUME
    ensures InBounds(c.x, c.y, c.z) && Index(c.x, c.y, c.z) == i
  {
    Int3(i % 16, (i / 16) % 16, i / 256)
  }

  lemma CoordsOfIndex(x: nat, y: nat, z: nat)
    requires InBounds(x, y, z)
    ensures Coords(Index(x, y, z)) == Int3(x, y, z)
  {
  }

  lemma IndexInjective(x: nat, y: nat, z: nat, x': nat, y': nat, z': nat)
    requires InBounds(x, y, z) && InBounds(x', y', z')
    ensures Index(x, y, z) == Index(x', y', z') <==> (x, y, z) == (x', y', z')
  {
  }

  /** Without the per-axis bounds, x = CHUNK_SIZE silently addresses the first cell of the next row. */
  lemma IndexAliasesPastRowEnd(y: nat, z: nat)
    ensures Index(CHUNK_SIZE, y, z) == Index(0, y + 1, z)
  {
  }

  /** Likewise y = CHUNK_SIZE addresses the first row of the next layer. */
  lemma IndexAliasesPastLayerEnd(z: nat)
    ensures Index(0, CHUNK_SIZE, z) == Index(0, 0, z + 1)
  {
  }

  /** The contents of a chunk as a value: one identifier per cell. */
  predicate IsGrid(cells: seq<BlockId>) {
    |cells| == CHUNK_VOLUME
  }

  /** The identifier at a local coordinate. */
  function Get(cells: seq<BlockId>, x: nat, y: nat, z: nat): BlockId
    requires IsGrid(cells) && InBounds(x, y, z)
  {
    cells[Index(x, y, z)]
  }

  /** The grid after writing `id` at one local coordinate. */
  function Put(cells: seq<BlockId>, x: nat, y: nat, z: nat, id: BlockId): (r: seq<BlockId>)
    requires IsGrid(cells) && InBounds(x, y, z)
    ensures IsGrid(r)
  {
    cells[Index(x, y, z) := id]
  }

  /** The grid of a freshly created chunk. */
  function AirGrid(): (cells: seq<BlockId>)
    ensures IsGrid(cells)
  {
    seq(CHUNK_VOLUME, _ => AIR)
  }

  lemma AirGridIsAir(x: nat, y: nat, z: nat)
    requires InBounds(x, y, z)
    ensures Get(AirGrid(), x, y, z) == AIR
  {
  }

  /** Reading a coordinate back after writing it yields the written identifier. */
  lemma GetPutSame(cells: seq<BlockId>, x: nat, y: nat, z: nat, id: BlockId)
    requires IsGrid(cells) && InBounds(x, y, z)
    ensures Get(Put(cells, x, y, z, id), x, y, z) == id
  {
  }

  /** Writing one coordinate leaves every other coordinate as it was. */
  lemma GetPutOther(cells: seq<BlockId>, x: nat, y: nat, z: nat, id: BlockId, x': nat, y': nat, z': nat)
    requires IsGrid(cells) && InBounds(x, y, z) && InBounds(x', y', z')
    requires (x', y', z') != (x, y, z)
    ensures Get(Put(cells, x, y, z, id), x', y', z') == Get(cells, x', y', z')
  {
    IndexInjective(x, y, z, x', y', z');
  }

  /** A chunk: `CHUNK_VOLUME` block identifiers and the chunk's grid position. */
  class Chunk {
    var blocks: array<BlockId>
    var position: Int3

    ghost predicate Valid()
      reads this
    {
      blocks.Length == CHUNK_VOLUME
    }

    /** The current contents of the chunk. */
    function Cells(): (cells: seq<BlockId>)
      reads this, blocks
      requires Valid()
      ensures IsGrid(cells)
    {
      blocks[..]
    }

    /** A chunk at `position` with every cell air. */
    constructor (position: Int3)
      ensures Valid() && fresh(blocks)
      ensures this.position == position
      ensures Cells() == AirGrid()
      ensures forall x: nat, y: nat, z: nat | InBounds(x, y, z) :: Get(Cells(), x, y, z) == AIR
    {
      blocks := new BlockId[CHUNK_VOLUME](_ => AIR);
      this.position := position;
    }

    /** Overwrites one cell in place. */
    method SetBlock(x: nat, y: nat, z: nat, id: BlockId)
      requires Valid() && InBounds(x, y, z)
      modifies blocks
      ensures Valid()
      ensures Cells() == Put(old(Cells()), x, y, z, id)
      ensures Get(Cells(), x, y, z) == id
      ensures forall x': nat, y': nat, z': nat | InBounds(x', y', z') && (x', y', z') != (x, y, z) ::
                Get(Cells(), x', y', z') == old(Get(Cells(), x', y', z'))
    {
      blocks[Index(x, y, z)] := id;
      forall x': nat, y': nat, z': nat | InBounds(x', y', z') && (x', y', z') != (x, y, z)
        ensures Get(Cells(), x', y', z') == old(Get(Cells(), x', y', z'))
      {
        GetPutOther(old(Cells()), x, y, z, id, x', y', z');
      }
    }

    /** Reads one cell. */
    function GetBlock(x: nat, y: nat, z: nat): (id: BlockId)
      reads this, blocks
      requires Valid() && InBounds(x, y, z)
      ensures id == Get(Cells(), x, y, z)
    {
      blocks[Index(x, y, z)]
    }
  }
}
