/** Block identifiers and the chunk dimensions shared by the chunk grid and the mesher. */
module VoxelTypes {

  /** A block identifier: an unsigned 8-bit value. */
  type BlockId = b: int | 0 <= b < 256

  /** The reserved identifier of the empty block. */
  const AIR: BlockId := 0

  /** Edge length of a chunk, in cells. */
  const CHUNK_SIZE: nat := 16

  /** Number of cells in a chunk, CHUNK_SIZE cubed (`ChunkVolumeIs4096`). */
  const CHUNK_VOLUME: nat := 4096

  /** "Is air" is decided by equality with `AIR`, never by a table lookup. */
  predicate IsAir(id: BlockId) {
    id == AIR
  }

  /** An integer 3-vector: a chunk's grid position or a mesh coordinate. */
  datatype Int3 = Int3(x: int, y: int, z: int)

  /** The volume is the cube of the edge length. */
  lemma ChunkVolumeIs4096()
    ensures CHUNK_VOLUME == CHUNK_SIZE * CHUNK_SIZE * CHUNK_SIZE == 4096
  {
  }
}
