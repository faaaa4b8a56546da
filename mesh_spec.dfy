/**
 * The specification of culled-face meshing of one chunk. Every solid cell emits one quad per
 * axis direction whose neighbour lies outside the chunk or holds air.
 * Vertex coordinates are integral (local coordinate + position * CHUNK_SIZE
 * + 0 or 1), so they are modelled as `Int3` rather than floats; they agree
 * with the source's `f32` values while the chunk position stays below 2^20 on
 * every axis (`CoordinatesExactInF32`).
 */
module MeshSpec {
  import opened VoxelTypes
  import opened VoxelChunk

  /** A texture coordinate. */
  datatype Uv = Uv(u: int, v: int)

  /** The mesh buffers: per-vertex positions, normals and UVs, and a triangle index list. */
  datatype ChunkMesh = ChunkMesh(positions: seq<Int3>, normals: seq<Int3>, uvs: seq<Uv>, indices: seq<int>)

  const EmptyMesh: ChunkMesh := ChunkMesh([], [], [], [])

  /** The six face directions, in the order the mesher tests them. */
  datatype Face = PosX | NegX | PosY | NegY | PosZ | NegZ

  /** Face `face` of the cell at local coordinate (x, y, z). */
  datatype CellFace = CellFace(x: nat, y: nat, z: nat, face: Face)

  /** One past the largest value of the `u32` index type. */
  const U32_LIMIT: int := 0x1_0000_0000

  /** The `as u32` conversion: truncation to the low 32 bits. */
  function AsU32(n: nat): (r: nat)
    ensures r < U32_LIMIT
    ensures n < U32_LIMIT ==> r == n
  {
    n % U32_LIMIT
  }

  /**
   * Appends one quad: four corners, four copies of the normal, the four UV
   * corners spanned by `uv00` and `uv11`, and two triangles whose indices
   * count from `baseIndex`.
   */
  function AppendQuad(m: ChunkMesh, baseIndex: int, a: Int3, b: Int3, c: Int3, d: Int3,
                      normal: Int3, uv00: Uv, uv11: Uv): (r: ChunkMesh)
    ensures |r.positions| == |m.positions| + 4 && |r.normals| == |m.normals| + 4
    ensures |r.uvs| == |m.uvs| + 4 && |r.indices| == |m.indices| + 6
    ensures forall i :: |m.indices| <= i < |r.indices| ==> baseIndex <= r.indices[i] < baseIndex + 4
  {
    ChunkMesh(
      m.positions + [a, b, c, d],
      m.normals + [normal, normal, normal, normal],
      m.uvs + [Uv(uv00.u, uv00.v), Uv(uv11.u, uv00.v), Uv(uv11.u, uv11.v), Uv(uv00.u, uv11.v)],
      m.indices + [baseIndex + 0, baseIndex + 1, baseIndex + 2, baseIndex + 2, baseIndex + 3, baseIndex + 0])
  }

  /** `v` is a unit vector along one coordinate axis. */
  predicate UnitAxis(v: Int3) {
    || (v.y == 0 && v.z == 0 && (v.x == 1 || v.x == -1))
    || (v.x == 0 && v.z == 0 && (v.y == 1 || v.y == -1))
    || (v.x == 0 && v.y == 0 && (v.z == 1 || v.z == -1))
  }

  /** The outward axis unit vector of a face. */
  function Normal(f: Face): (n: Int3)
    ensures UnitAxis(n)
  {
    match f
    case PosX => Int3(1, 0, 0)
    case NegX => Int3(-1, 0, 0)
    case PosY => Int3(0, 1, 0)
    case NegY => Int3(0, -1, 0)
    case PosZ => Int3(0, 0, 1)
    case NegZ => Int3(0, 0, -1)
  }

  /** The four corners, in emission order, of face `f` of the unit cube whose lowest corner is `p`. */
  function Corners(f: Face, p: Int3): (cs: seq<Int3>)
    ensures |cs| == 4
    ensures forall i, j :: 0 <= i < j < 4 ==> cs[i] != cs[j]
    ensures forall i :: 0 <= i < 4 ==> OnFace(cs[i], f, p)
  {
    match f
    case PosX => [Int3(p.x + 1, p.y, p.z), Int3(p.x + 1, p.y + 1, p.z), Int3(p.x + 1, p.y + 1, p.z + 1), Int3(p.x + 1, p.y, p.z + 1)]
    case NegX => [Int3(p.x, p.y, p.z), Int3(p.x, p.y, p.z + 1), Int3(p.x, p.y + 1, p.z + 1), Int3(p.x, p.y + 1, p.z)]
    case PosY => [Int3(p.x, p.y + 1, p.z), Int3(p.x + 1, p.y + 1, p.z), Int3(p.x + 1, p.y + 1, p.z + 1), Int3(p.x, p.y + 1, p.z + 1)]
    case NegY => [Int3(p.x, p.y, p.z), Int3(p.x, p.y, p.z + 1), Int3(p.x + 1, p.y, p.z + 1), Int3(p.x + 1, p.y, p.z)]
    case PosZ => [Int3(p.x, p.y, p.z + 1), Int3(p.x, p.y + 1, p.z + 1), Int3(p.x + 1, p.y + 1, p.z + 1), Int3(p.x + 1, p.y, p.z + 1)]
    case NegZ => [Int3(p.x, p.y, p.z), Int3(p.x + 1, p.y, p.z), Int3(p.x + 1, p.y + 1, p.z), Int3(p.x, p.y + 1, p.z)]
  }

  /**
   * `c` is a corner of the unit cube whose lowest corner is `p`, lying in the
   * plane of face `f`: one step along the normal for a positive face, none
   * for a negative one.
   */
  predicate OnFace(c: Int3, f: Face, p: Int3) {
    var n := Normal(f);
    && p.x <= c.x <= p.x + 1 && p.y <= c.y <= p.y + 1 && p.z <= c.z <= p.z + 1
    && (n.x != 0 ==> c.x == p.x + (if n.x > 0 then 1 else 0))
    && (n.y != 0 ==> c.y == p.y + (if n.y > 0 then 1 else 0))
    && (n.z != 0 ==> c.z == p.z + (if n.z > 0 then 1 else 0))
  }

  /** 2^24: every integer of at most this magnitude is exact in an `f32`. */
  const F32_EXACT: int := 0x100_0000

  /** 2^20: the bound on a chunk position's coordinates within which the mesher's `f32` arithmetic is exact. */
  const POSITION_EXACT: int := 0x10_0000

  /** Each coordinate of the chunk position is below 2^20 in magnitude. */
  predicate PositionExact(position: Int3) {
    && -POSITION_EXACT < position.x < POSITION_EXACT
    && -POSITION_EXACT < position.y < POSITION_EXACT
    && -POSITION_EXACT < position.z < POSITION_EXACT
  }

  /** Each coordinate of `v` is an integer that an `f32` holds exactly. */
  predicate ExactInF32(v: Int3) {
    && -F32_EXACT <= v.x <= F32_EXACT
    && -F32_EXACT <= v.y <= F32_EXACT
    && -F32_EXACT <= v.z <= F32_EXACT
  }

  /** The world-space lowest corner of a cell of the chunk at `position`. */
  function WorldBase(x: nat, y: nat, z: nat, position: Int3): Int3 {
    Int3(x + position.x * CHUNK_SIZE, y + position.y * CHUNK_SIZE, z + position.z * CHUNK_SIZE)
  }

  /** Pushes the quad of face `f` of the cell whose world-space corner is `base`. */
  function PushFace(m: ChunkMesh, baseIndex: int, base: Int3, f: Face): ChunkMesh {
    var cs := Corners(f, base);
    AppendQuad(m, baseIndex, cs[0], cs[1], cs[2], cs[3], Normal(f), Uv(0, 0), Uv(1, 1))
  }

  /**
   * The face-visibility test: the neighbour across face `f` is outside the
   * chunk on that axis, or holds air. The bounds test comes first, so the
   * neighbour is read only when it is inside the chunk.
   */
  predicate Visible(cells: seq<BlockId>, x: nat, y: nat, z: nat, f: Face)
    requires IsGrid(cells) && InBounds(x, y, z)
  {
    match f
    case PosX => x + 1 >= CHUNK_SIZE || Get(cells, x + 1, y, z) == AIR
    case NegX => x - 1 < 0 || Get(cells, x - 1, y, z) == AIR
    case PosY => y + 1 >= CHUNK_SIZE || Get(cells, x, y + 1, z) == AIR
    case NegY => y - 1 < 0 || Get(cells, x, y - 1, z) == AIR
    case PosZ => z + 1 >= CHUNK_SIZE || Get(cells, x, y, z + 1) == AIR
    case NegZ => z - 1 < 0 || Get(cells, x, y, z - 1) == AIR
  }

  /** Whether `cf` names a solid cell of the chunk whose face `cf.face` is visible. */
  predicate Exposed(cells: seq<BlockId>, cf: CellFace)
    requires IsGrid(cells)
  {
    InBounds(cf.x, cf.y, cf.z) && Get(cells, cf.x, cf.y, cf.z) != AIR && Visible(cells, cf.x, cf.y, cf.z, cf.face)
  }

  /** Face `f` of the cell as a one-element list when it is visible, else nothing. */
  function FaceIfVisible(cells: seq<BlockId>, x: nat, y: nat, z: nat, f: Face): seq<CellFace>
    requires IsGrid(cells) && InBounds(x, y, z)
  {
    if Visible(cells, x, y, z, f) then [CellFace(x, y, z, f)] else []
  }

  /** The six directions in the order the mesher tests them. */
  const Directions: seq<Face> := [PosX, NegX, PosY, NegY, PosZ, NegZ]

  /** The visible faces of cell (x, y, z) among `dirs`, in the order of `dirs`. */
  function FacesAlong(cells: seq<BlockId>, x: nat, y: nat, z: nat, dirs: seq<Face>): (fs: seq<CellFace>)
    requires IsGrid(cells) && InBounds(x, y, z)
    ensures |fs| <= |dirs|
  {
    if dirs == [] then []
    else FaceIfVisible(cells, x, y, z, dirs[0]) + FacesAlong(cells, x, y, z, dirs[1..])
  }

  /** The faces one cell emits, in emission order: none for air. */
  function CellFaces(cells: seq<BlockId>, x: nat, y: nat, z: nat): (fs: seq<CellFace>)
    requires IsGrid(cells) && InBounds(x, y, z)
    ensures |fs| <= 6
  {
    if Get(cells, x, y, z) == AIR then [] else FacesAlong(cells, x, y, z, Directions)
  }

  /**
   * The faces emitted by the cells with flat index below `k`. The z/y/x loop
   * nest visits cells in increasing flat index, so this is emission order.
   */
  function EmittedFaces(cells: seq<BlockId>, k: nat): seq<CellFace>
    requires IsGrid(cells) && k <= CHUNK_VOLUME
  {
    if k == 0 then []
    else
      var c := Coords(k - 1);
      EmittedFaces(cells, k - 1) + CellFaces(cells, c.x, c.y, c.z)
  }

  /** Appends the quad of one emitted face, based at the current vertex count. */
  function EmitFace(m: ChunkMesh, cf: CellFace, position: Int3): ChunkMesh {
    PushFace(m, |m.positions|, WorldBase(cf.x, cf.y, cf.z, position), cf.face)
  }

  /** The mesh built by emitting `faces` in order into empty buffers. */
  function MeshOf(faces: seq<CellFace>, position: Int3): ChunkMesh {
    if faces == [] then EmptyMesh
    else EmitFace(MeshOf(faces[..|faces| - 1], position), faces[|faces| - 1], position)
  }

  /** The mesh of a chunk with contents `cells` at grid position `position`. */
  function ExpectedMesh(cells: seq<BlockId>, position: Int3): ChunkMesh
    requires IsGrid(cells)
  {
    MeshOf(EmittedFaces(cells, CHUNK_VOLUME), position)
  }

  /** The cell across face `f`: the cell offset by the face's normal. */
  function Neighbour(x: nat, y: nat, z: nat, f: Face): Int3 {
    var n := Normal(f);
    Int3(x + n.x, y + n.y, z + n.z)
  }

  /** The texture coordinates of a quad's four corners, in order. */
  const QuadUvs: seq<Uv> := [Uv(0, 0), Uv(1, 0), Uv(1, 1), Uv(0, 1)]

  /** Quad `q` has the shape every pushed quad has. */
  predicate QuadShaped(m: ChunkMesh, q: nat)
    requires 4 * q + 4 <= |m.positions| == |m.normals| == |m.uvs| && 6 * q + 6 <= |m.indices|
  {
    && m.indices[6 * q .. 6 * q + 6] == [4 * q, 4 * q + 1, 4 * q + 2, 4 * q + 2, 4 * q + 3, 4 * q]
    && (exists f :: m.normals[4 * q .. 4 * q + 4] == [Normal(f), Normal(f), Normal(f), Normal(f)])
    && m.uvs[4 * q .. 4 * q + 4] == QuadUvs
  }

  /**
   * The buffer invariant: the three vertex attributes run in parallel, they
   * hold whole quads, each quad has six indices, and every quad is shaped as
   * pushed (which makes every index refer to an existing vertex).
   */
  predicate WellFormed(m: ChunkMesh) {
    && |m.normals| == |m.positions|
    && |m.uvs| == |m.positions|
    && |m.positions| % 4 == 0
    && |m.indices| == 6 * (|m.positions| / 4)
    && forall q: nat :: q < |m.positions| / 4 ==> QuadShaped(m, q)
  }

  function Sub(a: Int3, b: Int3): Int3 {
    Int3(a.x - b.x, a.y - b.y, a.z - b.z)
  }

  /** The 2x2 determinant `a * d - b * c`. */
  function Det(a: int, b: int, c: int, d: int): int {
    a * d - b * c
  }

  function Cross(u: Int3, v: Int3): Int3 {
    Int3(Det(u.y, u.z, v.y, v.z), Det(u.z, u.x, v.z, v.x), Det(u.x, u.y, v.x, v.y))
  }

  function Negate(v: Int3): Int3 {
    Int3(-v.x, -v.y, -v.z)
  }

  /** The orientation `(b - a) x (c - a)` of the triangle with corners a, b, c. */
  function TriangleNormal(a: Int3, b: Int3, c: Int3): Int3 {
    Cross(Sub(b, a), Sub(c, a))
  }

  /** Triangle `t` of a quad with corners a, b, c, d: (a, b, c) for t = 0, (c, d, a) for t = 1. */
  function QuadTriangle(cs: seq<Int3>, t: nat): seq<Int3>
    requires |cs| == 4
  {
    if t == 0 then [cs[0], cs[1], cs[2]] else [cs[2], cs[3], cs[0]]
  }

  /** Triangle `tri` of `m` (indices 3 tri .. 3 tri + 2) names three existing vertices. */
  predicate TriangleInRange(m: ChunkMesh, tri: nat) {
    && 3 * tri + 3 <= |m.indices|
    && 0 <= m.indices[3 * tri] < |m.positions| && m.indices[3 * tri] < |m.normals|
    && 0 <= m.indices[3 * tri + 1] < |m.positions|
    && 0 <= m.indices[3 * tri + 2] < |m.positions|
  }

  /** The positions of triangle `tri`'s three vertices, in index order. */
  function TriangleCorners(m: ChunkMesh, tri: nat): seq<Int3>
    requires TriangleInRange(m, tri)
  {
    [m.positions[m.indices[3 * tri]], m.positions[m.indices[3 * tri + 1]], m.positions[m.indices[3 * tri + 2]]]
  }

  /** The orientation of triangle `tri`, from its corners in index order. */
  function TriangleOrientation(m: ChunkMesh, tri: nat): Int3
    requires TriangleInRange(m, tri)
  {
    var cs := TriangleCorners(m, tri);
    TriangleNormal(cs[0], cs[1], cs[2])
  }

  /** The normal carried by triangle `tri`'s first vertex. */
  function FirstVertexNormal(m: ChunkMesh, tri: nat): Int3
    requires TriangleInRange(m, tri)
  {
    m.normals[m.indices[3 * tri]]
  }

  /**
   * Whether a face's corner order winds with its normal (the triangles'
   * cross product equals the normal) rather than against it: true only for
   * the two X faces.
   */
  predicate WindsWithNormal(f: Face) {
    f == PosX || f == NegX
  }
}
