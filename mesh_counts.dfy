/**
 * What the mesh of a whole chunk contains: its buffer shape and size, the
 * faces it holds, and the face counts of small example chunks.
 */
module MeshCounts {
  import opened VoxelTypes
  import opened VoxelChunk
  import opened MeshSpec
  import opened MeshProperties

  /** Every index of well-formed buffers names an existing vertex. */
  lemma IndicesInRange(m: ChunkMesh)
    requires WellFormed(m)
    ensures forall i | 0 <= i < |m.indices| :: 0 <= m.indices[i] < |m.positions|
  {
    forall i | 0 <= i < |m.indices|
      ensures 0 <= m.indices[i] < |m.positions|
    {
      var q := i / 6;
      assert QuadShaped(m, q);
      assert m.indices[i] == m.indices[6 * q .. 6 * q + 6][i - 6 * q];
    }
  }

  /**
   * The mesh of any chunk is well formed, holds four vertices and six
   * indices per emitted face, and has fewer than 2^32 vertices, so the
   * base index never wraps when converted to 32 bits.
   */
  lemma ExpectedMeshShape(cells: seq<BlockId>, position: Int3)
    requires IsGrid(cells)
    ensures var m := ExpectedMesh(cells, position);
      var n := |EmittedFaces(cells, CHUNK_VOLUME)|;
      && WellFormed(m)
      && |m.positions| == 4 * n && |m.indices| == 6 * n
      && n <= 6 * CHUNK_VOLUME
      && |m.positions| <= 4 * 6 * CHUNK_VOLUME < U32_LIMIT
  {
    var faces := EmittedFaces(cells, CHUNK_VOLUME);
    MeshOfWellFormed(faces, position);
    MeshOfSizes(faces, position);
    EmittedFacesBound(cells, CHUNK_VOLUME);
    ChunkVolumeIs4096();
  }

  /** A face is in the chunk's mesh exactly when its cell is solid and the neighbour across it is outside the chunk or air. */
  lemma EmittedIffOpen(cells: seq<BlockId>, cf: CellFace)
    requires IsGrid(cells)
    ensures var n := Neighbour(cf.x, cf.y, cf.z, cf.face);
      cf in EmittedFaces(cells, CHUNK_VOLUME) <==>
        && InBounds(cf.x, cf.y, cf.z) && Get(cells, cf.x, cf.y, cf.z) != AIR
        && (!InBounds(n.x, n.y, n.z) || Get(cells, n.x, n.y, n.z) == AIR)
  {
    EmittedFacesMember(cells, CHUNK_VOLUME, cf);
    if InBounds(cf.x, cf.y, cf.z) {
      VisibleIffNeighbourOpen(cells, cf.x, cf.y, cf.z, cf.face);
    }
  }

  /** A solid cell on the chunk's boundary always shows its face towards the outside. */
  lemma BoundaryFaceEmitted(cells: seq<BlockId>, x: nat, y: nat, z: nat, f: Face)
    requires IsGrid(cells) && InBounds(x, y, z) && Get(cells, x, y, z) != AIR
    requires var n := Neighbour(x, y, z, f); !InBounds(n.x, n.y, n.z)
    ensures CellFace(x, y, z, f) in EmittedFaces(cells, CHUNK_VOLUME)
  {
    EmittedIffOpen(cells, CellFace(x, y, z, f));
  }

  /** In particular a solid cell at x = 15 always shows its +X face. */
  lemma LastColumnShowsPosX(cells: seq<BlockId>, y: nat, z: nat)
    requires IsGrid(cells) && InBounds(CHUNK_SIZE - 1, y, z) && Get(cells, CHUNK_SIZE - 1, y, z) != AIR
    ensures CellFace(CHUNK_SIZE - 1, y, z, PosX) in EmittedFaces(cells, CHUNK_VOLUME)
  {
    BoundaryFaceEmitted(cells, CHUNK_SIZE - 1, y, z, PosX);
  }

  /** A face between two solid cells is never emitted. */
  lemma HiddenFaceNotEmitted(cells: seq<BlockId>, x: nat, y: nat, z: nat, f: Face)
    requires IsGrid(cells) && InBounds(x, y, z)
    requires var n := Neighbour(x, y, z, f); InBounds(n.x, n.y, n.z) && Get(cells, n.x, n.y, n.z) != AIR
    ensures CellFace(x, y, z, f) !in EmittedFaces(cells, CHUNK_VOLUME)
  {
    EmittedIffOpen(cells, CellFace(x, y, z, f));
  }

  lemma {:induction false} AirGridEmitsNothing(k: nat)
    requires k <= CHUNK_VOLUME
    ensures EmittedFaces(AirGrid(), k) == []
  {
    if k > 0 {
      var j: nat := k - 1;
      AirGridEmitsNothing(j);
      var c := Coords(j);
      AirGridIsAir(c.x, c.y, c.z);
      EmittedFacesSnoc(AirGrid(), j);
    }
  }

  /** An all-air chunk, as a new chunk is, meshes to four empty buffers. */
  lemma AirChunkMeshIsEmpty(position: Int3)
    ensures ExpectedMesh(AirGrid(), position) == EmptyMesh
  {
    AirGridEmitsNothing(CHUNK_VOLUME);
  }

  /** A list without repeats has exactly as many entries as the set of its entries. */
  lemma {:induction false} DistinctCount<T>(s: seq<T>, elems: set<T>)
    requires NoRepeats(s)
    requires forall e :: e in s <==> e in elems
    ensures |s| == |elems|
  {
    if s == [] {
      assert elems == {};
    } else {
      var rest := s[1..];
      assert NoRepeats(rest) by {
        forall i, j | 0 <= i < j < |rest| ensures rest[i] != rest[j] {
          assert rest[i] == s[i + 1] && rest[j] == s[j + 1];
        }
      }
      forall e
        ensures e in rest <==> e in elems - {s[0]}
      {
        if e in rest {
          var j :| 0 <= j < |rest| && rest[j] == e;
          assert s[j + 1] == e && s[0] != s[j + 1];
        }
        assert s == [s[0]] + rest;
      }
      DistinctCount(rest, elems - {s[0]});
    }
  }

  /** The six faces of one cell. */
  function AllFaces(x: nat, y: nat, z: nat): (fs: set<CellFace>)
    ensures |fs| == 6
  {
    {CellFace(x, y, z, PosX), CellFace(x, y, z, NegX), CellFace(x, y, z, PosY),
     CellFace(x, y, z, NegY), CellFace(x, y, z, PosZ), CellFace(x, y, z, NegZ)}
  }

  /** In a chunk holding one solid block, a cell is solid exactly when it is that block. */
  lemma SingleBlockGet(x: nat, y: nat, z: nat, id: BlockId, a: nat, b: nat, c: nat)
    requires InBounds(x, y, z) && InBounds(a, b, c)
    ensures Get(Put(AirGrid(), x, y, z, id), a, b, c) == if (a, b, c) == (x, y, z) then id else AIR
  {
    if (a, b, c) == (x, y, z) {
      GetPutSame(AirGrid(), x, y, z, id);
    } else {
      GetPutOther(AirGrid(), x, y, z, id, a, b, c);
      AirGridIsAir(a, b, c);
    }
  }

  /** A face belongs to the six faces of a cell exactly when it names that cell. */
  lemma AllFacesMember(x: nat, y: nat, z: nat, cf: CellFace)
    ensures cf in AllFaces(x, y, z) <==> cf.x == x && cf.y == y && cf.z == z
  {
    if cf.x == x && cf.y == y && cf.z == z {
      match cf.face
      case PosX => assert cf == CellFace(x, y, z, PosX);
      case NegX => assert cf == CellFace(x, y, z, NegX);
      case PosY => assert cf == CellFace(x, y, z, PosY);
      case NegY => assert cf == CellFace(x, y, z, NegY);
      case PosZ => assert cf == CellFace(x, y, z, PosZ);
      case NegZ => assert cf == CellFace(x, y, z, NegZ);
    }
  }

  /** The single block shows every one of its faces, and no other cell shows any. */
  lemma SingleBlockEmits(x: nat, y: nat, z: nat, id: BlockId, cf: CellFace)
    requires InBounds(x, y, z) && id != AIR
    ensures cf in EmittedFaces(Put(AirGrid(), x, y, z, id), CHUNK_VOLUME) <==> cf in AllFaces(x, y, z)
  {
    var cells := Put(AirGrid(), x, y, z, id);
    EmittedIffOpen(cells, cf);
    AllFacesMember(x, y, z, cf);
    var n := Neighbour(cf.x, cf.y, cf.z, cf.face);
    if InBounds(cf.x, cf.y, cf.z) {
      SingleBlockGet(x, y, z, id, cf.x, cf.y, cf.z);
    }
    if InBounds(n.x, n.y, n.z) {
      SingleBlockGet(x, y, z, id, n.x, n.y, n.z);
    }
  }

  /** One isolated block emits six quads: 24 vertices and 36 indices. */
  lemma SingleBlockSixQuads(x: nat, y: nat, z: nat, id: BlockId, position: Int3)
    requires InBounds(x, y, z) && id != AIR
    ensures var cells := Put(AirGrid(), x, y, z, id);
      var m := ExpectedMesh(cells, position);
      && |EmittedFaces(cells, CHUNK_VOLUME)| == 6
      && |m.positions| == 24 && |m.indices| == 36
  {
    var cells := Put(AirGrid(), x, y, z, id);
    var faces := EmittedFaces(cells, CHUNK_VOLUME);
    forall cf
      ensures cf in faces <==> cf in AllFaces(x, y, z)
    {
      SingleBlockEmits(x, y, z, id, cf);
    }
    EmittedFacesDistinct(cells, CHUNK_VOLUME);
    DistinctCount(faces, AllFaces(x, y, z));
    ExpectedMeshShape(cells, position);
  }

  /** The faces of two blocks side by side along x, less the two they share. */
  function PairFaces(x: nat, y: nat, z: nat): (fs: set<CellFace>)
    ensures |fs| == 10
  {
    (AllFaces(x, y, z) - {CellFace(x, y, z, PosX)}) + (AllFaces(x + 1, y, z) - {CellFace(x + 1, y, z, NegX)})
  }

  /** In a chunk holding two blocks side by side along x, a cell is solid exactly when it is one of them. */
  lemma PairGet(x: nat, y: nat, z: nat, i1: BlockId, i2: BlockId, a: nat, b: nat, c: nat)
    requires InBounds(x, y, z) && InBounds(x + 1, y, z) && InBounds(a, b, c)
    ensures var cells := Put(Put(AirGrid(), x, y, z, i1), x + 1, y, z, i2);
      Get(cells, a, b, c) ==
        if (a, b, c) == (x + 1, y, z) then i2 else if (a, b, c) == (x, y, z) then i1 else AIR
  {
    var one := Put(AirGrid(), x, y, z, i1);
    if (a, b, c) == (x + 1, y, z) {
      GetPutSame(one, x + 1, y, z, i2);
    } else {
      GetPutOther(one, x + 1, y, z, i2, a, b, c);
      SingleBlockGet(x, y, z, i1, a, b, c);
    }
  }

  /** The faces of the pair are those of either block except the two facing each other. */
  lemma PairFacesMember(x: nat, y: nat, z: nat, cf: CellFace)
    ensures cf in PairFaces(x, y, z) <==>
      || (cf.x == x && cf.y == y && cf.z == z && cf.face != PosX)
      || (cf.x == x + 1 && cf.y == y && cf.z == z && cf.face != NegX)
  {
    AllFacesMember(x, y, z, cf);
    AllFacesMember(x + 1, y, z, cf);
  }

  /** Each block of the pair shows every face except the one towards the other block. */
  lemma PairEmits(x: nat, y: nat, z: nat, i1: BlockId, i2: BlockId, cf: CellFace)
    requires InBounds(x, y, z) && InBounds(x + 1, y, z) && i1 != AIR && i2 != AIR
    ensures var cells := Put(Put(AirGrid(), x, y, z, i1), x + 1, y, z, i2);
      cf in EmittedFaces(cells, CHUNK_VOLUME) <==> cf in PairFaces(x, y, z)
  {
    var cells := Put(Put(AirGrid(), x, y, z, i1), x + 1, y, z, i2);
    EmittedIffOpen(cells, cf);
    PairFacesMember(x, y, z, cf);
    var n := Neighbour(cf.x, cf.y, cf.z, cf.face);
    if InBounds(cf.x, cf.y, cf.z) {
      PairGet(x, y, z, i1, i2, cf.x, cf.y, cf.z);
    }
    if InBounds(n.x, n.y, n.z) {
      PairGet(x, y, z, i1, i2, n.x, n.y, n.z);
    }
  }

  /** Two face-adjacent blocks emit ten quads: the shared faces are hidden. */
  lemma AdjacentBlocksTenQuads(x: nat, y: nat, z: nat, i1: BlockId, i2: BlockId, position: Int3)
    requires InBounds(x, y, z) && InBounds(x + 1, y, z) && i1 != AIR && i2 != AIR
    ensures var cells := Put(Put(AirGrid(), x, y, z, i1), x + 1, y, z, i2);
      var m := ExpectedMesh(cells, position);
      && |EmittedFaces(cells, CHUNK_VOLUME)| == 10
      && |m.positions| == 40 && |m.indices| == 60
  {
    var cells := Put(Put(AirGrid(), x, y, z, i1), x + 1, y, z, i2);
    var faces := EmittedFaces(cells, CHUNK_VOLUME);
    forall cf
      ensures cf in faces <==> cf in PairFaces(x, y, z)
    {
      PairEmits(x, y, z, i1, i2, cf);
    }
    EmittedFacesDistinct(cells, CHUNK_VOLUME);
    DistinctCount(faces, PairFaces(x, y, z));
    ExpectedMeshShape(cells, position);
  }
}
