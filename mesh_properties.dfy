/** Properties of the meshing specification: buffer shape, geometry, visibility and counts. */
module MeshProperties {
  import opened VoxelTypes
  import opened VoxelChunk
  import opened MeshSpec

  /** Pushing a quad of the source's shape, based at the current vertex count, keeps the buffers well formed. */
  lemma AppendQuadPreservesWellFormed(m: ChunkMesh, baseIndex: int, a: Int3, b: Int3, c: Int3, d: Int3, f: Face)
    requires WellFormed(m) && baseIndex == |m.positions|
    ensures var r := AppendQuad(m, baseIndex, a, b, c, d, Normal(f), Uv(0, 0), Uv(1, 1));
      && WellFormed(r)
      && |r.positions| == |m.positions| + 4 && |r.indices| == |m.indices| + 6
      && r.positions[|m.positions|..] == [a, b, c, d]
  {
    var r := AppendQuad(m, baseIndex, a, b, c, d, Normal(f), Uv(0, 0), Uv(1, 1));
    var n := |m.positions| / 4;
    assert |r.positions| / 4 == n + 1;
    forall q: nat | q < n + 1
      ensures QuadShaped(r, q)
    {
      if q < n {
        assert QuadShaped(m, q);
        assert r.indices[6 * q .. 6 * q + 6] == m.indices[6 * q .. 6 * q + 6];
        assert r.normals[4 * q .. 4 * q + 4] == m.normals[4 * q .. 4 * q + 4];
        assert r.uvs[4 * q .. 4 * q + 4] == m.uvs[4 * q .. 4 * q + 4];
      } else {
        assert r.normals[4 * q .. 4 * q + 4] == [Normal(f), Normal(f), Normal(f), Normal(f)];
        assert r.indices[6 * q .. 6 * q + 6] == [4 * q, 4 * q + 1, 4 * q + 2, 4 * q + 2, 4 * q + 3, 4 * q];
        assert r.uvs[4 * q .. 4 * q + 4] == QuadUvs;
      }
    }
  }

  /** Each emitted face contributes exactly four vertices and six indices. */
  lemma {:induction false} MeshOfSizes(faces: seq<CellFace>, position: Int3)
    ensures var m := MeshOf(faces, position);
      && |m.positions| == |m.normals| == |m.uvs| == 4 * |faces|
      && |m.indices| == 6 * |faces|
  {
    if faces != [] {
      MeshOfSizes(faces[..|faces| - 1], position);
    }
  }

  /** Emitting any list of faces into empty buffers yields well-formed buffers. */
  lemma {:induction false} MeshOfWellFormed(faces: seq<CellFace>, position: Int3)
    ensures WellFormed(MeshOf(faces, position))
  {
    if faces != [] {
      var init := faces[..|faces| - 1];
      var m := MeshOf(init, position);
      MeshOfWellFormed(init, position);
      var cf := faces[|faces| - 1];
      var cs := Corners(cf.face, WorldBase(cf.x, cf.y, cf.z, position));
      AppendQuadPreservesWellFormed(m, |m.positions|, cs[0], cs[1], cs[2], cs[3], cf.face);
    }
  }

  /** What one emitted face appends to each buffer. */
  lemma EmitFaceAppends(m: ChunkMesh, cf: CellFace, position: Int3)
    ensures var r := EmitFace(m, cf, position);
      var n := Normal(cf.face);
      var b := |m.positions|;
      && r.positions == m.positions + Corners(cf.face, WorldBase(cf.x, cf.y, cf.z, position))
      && r.normals == m.normals + [n, n, n, n]
      && r.uvs == m.uvs + QuadUvs
      && r.indices == m.indices + [b, b + 1, b + 2, b + 2, b + 3, b]
  {
    var cs := Corners(cf.face, WorldBase(cf.x, cf.y, cf.z, position));
    assert |cs| == 4;
    assert cs == [cs[0], cs[1], cs[2], cs[3]];
  }

  /** A slice that lies within `a` is unchanged by appending `b`. */
  lemma SliceOfPrefix<T>(a: seq<T>, b: seq<T>, i: nat, j: nat)
    requires i <= j <= |a|
    ensures (a + b)[i..j] == a[i..j]
  {
  }

  /**
   * Quad `q` of the mesh is the quad of the `q`-th emitted face: its four
   * positions are that face's corners at the cell's world position.
   */
  lemma {:induction false} MeshOfQuadCorners(faces: seq<CellFace>, position: Int3, q: nat)
    requires q < |faces|
    ensures var m := MeshOf(faces, position);
      var cf := faces[q];
      && |m.positions| == |m.normals| == |m.uvs| == 4 * |faces| && |m.indices| == 6 * |faces|
      && m.positions[4 * q .. 4 * q + 4] == Corners(cf.face, WorldBase(cf.x, cf.y, cf.z, position))
  {
    MeshOfSizes(faces, position);
    var init := faces[..|faces| - 1];
    var last := faces[|faces| - 1];
    var m0 := MeshOf(init, position);
    MeshOfSizes(init, position);
    EmitFaceAppends(m0, last, position);
    var cs := Corners(last.face, WorldBase(last.x, last.y, last.z, position));
    var m := MeshOf(faces, position);
    assert m.positions == m0.positions + cs;
    if q < |init| {
      MeshOfQuadCorners(init, position, q);
      assert faces[q] == init[q];
      SliceOfPrefix(m0.positions, cs, 4 * q, 4 * q + 4);
    } else {
      assert faces[q] == last;
      assert m.positions[4 * q .. 4 * q + 4] == m.positions[|m0.positions|..];
    }
  }

  /** Every vertex of quad `q` carries the normal of the `q`-th emitted face. */
  lemma {:induction false} MeshOfQuadNormal(faces: seq<CellFace>, position: Int3, q: nat, j: nat)
    requires q < |faces| && j < 4
    ensures var m := MeshOf(faces, position);
      |m.normals| == 4 * |faces| && m.normals[4 * q + j] == Normal(faces[q].face)
  {
    MeshOfSizes(faces, position);
    var init := faces[..|faces| - 1];
    var last := faces[|faces| - 1];
    var m0 := MeshOf(init, position);
    MeshOfSizes(init, position);
    EmitFaceAppends(m0, last, position);
    var n := Normal(last.face);
    var m := MeshOf(faces, position);
    assert m.normals == m0.normals + [n, n, n, n];
    if q < |init| {
      MeshOfQuadNormal(init, position, q, j);
      assert faces[q] == init[q];
      assert m.normals[4 * q + j] == m0.normals[4 * q + j];
    } else {
      assert faces[q] == last;
      assert m.normals[4 * q + j] == [n, n, n, n][j];
    }
  }

  /** A triangle's orientation depends only on its two edges out of the first corner. */
  lemma TriangleNormalByEdges(a: Int3, b: Int3, c: Int3, u: Int3, v: Int3)
    requires Sub(b, a) == u && Sub(c, a) == v
    ensures TriangleNormal(a, b, c) == Cross(u, v)
  {
  }

  lemma CrossOfNegations(u: Int3, v: Int3)
    ensures Cross(Negate(u), Negate(v)) == Cross(u, v)
  {
  }

  /** In a parallelogram a, b, c, d the triangles (a, b, c) and (c, d, a) have the same orientation. */
  lemma ParallelogramWinding(a: Int3, b: Int3, c: Int3, d: Int3)
    requires Sub(d, c) == Sub(a, b)
    ensures TriangleNormal(c, d, a) == TriangleNormal(a, b, c)
  {
    assert Sub(d, c) == Negate(Sub(b, a));
    assert Sub(a, c) == Negate(Sub(c, a));
    CrossOfNegations(Sub(b, a), Sub(c, a));
  }

  /** Every face's four corners form a parallelogram (indeed a unit square). */
  lemma CornersParallelogram(f: Face, p: Int3)
    ensures var cs := Corners(f, p); Sub(cs[3], cs[2]) == Sub(cs[0], cs[1])
  {
  }

  /** In well-formed buffers, triangle `t` (0 or 1) of quad `q` names corners (a, b, c) or (c, d, a) of that quad. */
  lemma QuadTriangleIndices(m: ChunkMesh, q: nat, t: nat)
    requires WellFormed(m) && q < |m.positions| / 4 && t < 2
    ensures 6 * q + 6 <= |m.indices|
    ensures t == 0 ==> m.indices[6 * q] == 4 * q && m.indices[6 * q + 1] == 4 * q + 1 && m.indices[6 * q + 2] == 4 * q + 2
    ensures t == 1 ==> m.indices[6 * q + 3] == 4 * q + 2 && m.indices[6 * q + 4] == 4 * q + 3 && m.indices[6 * q + 5] == 4 * q
  {
    assert QuadShaped(m, q);
    var ix := m.indices[6 * q .. 6 * q + 6];
    assert ix == [4 * q, 4 * q + 1, 4 * q + 2, 4 * q + 2, 4 * q + 3, 4 * q];
    assert m.indices[6 * q] == ix[0] && m.indices[6 * q + 1] == ix[1] && m.indices[6 * q + 2] == ix[2];
    assert m.indices[6 * q + 3] == ix[3] && m.indices[6 * q + 4] == ix[4] && m.indices[6 * q + 5] == ix[5];
  }

  /**
   * In well-formed buffers whose quad `q` has corners `cs`, triangle `t`
   * (0 or 1) of that quad is (a, b, c) or (c, d, a).
   */
  lemma QuadTriangleCorners(m: ChunkMesh, q: nat, t: nat, cs: seq<Int3>)
    requires WellFormed(m) && q < |m.positions| / 4 && t < 2
    requires m.positions[4 * q .. 4 * q + 4] == cs
    ensures TriangleInRange(m, 2 * q + t) && |cs| == 4
    ensures TriangleCorners(m, 2 * q + t) == QuadTriangle(cs, t)
    ensures FirstVertexNormal(m, 2 * q + t) == m.normals[4 * q + 2 * t]
  {
    QuadTriangleIndices(m, q, t);
    assert m.positions[4 * q] == cs[0] && m.positions[4 * q + 1] == cs[1];
    assert m.positions[4 * q + 2] == cs[2] && m.positions[4 * q + 3] == cs[3];
  }

  /** When a quad's two triangles wind alike, either triangle winds like (a, b, c). */
  lemma QuadTriangleOrientation(cs: seq<Int3>, t: nat)
    requires |cs| == 4 && t < 2
    requires TriangleNormal(cs[2], cs[3], cs[0]) == TriangleNormal(cs[0], cs[1], cs[2])
    ensures var tr := QuadTriangle(cs, t); TriangleNormal(tr[0], tr[1], tr[2]) == TriangleNormal(cs[0], cs[1], cs[2])
  {
  }

  /** A triangle's orientation depends only on its corners. */
  lemma OrientationOfCorners(m: ChunkMesh, tri: nat, cs: seq<Int3>)
    requires TriangleInRange(m, tri) && TriangleCorners(m, tri) == cs
    ensures |cs| == 3 && TriangleOrientation(m, tri) == TriangleNormal(cs[0], cs[1], cs[2])
  {
  }

  /**
   * Triangle `t` (0 or 1) of quad `q` is made of corners (a, b, c) or
   * (c, d, a) of the `q`-th emitted face, and its first vertex carries that
   * face's normal.
   */
  lemma MeshOfTriangleCorners(faces: seq<CellFace>, position: Int3, q: nat, t: nat)
    requires q < |faces| && t < 2
    ensures var m := MeshOf(faces, position);
      && TriangleInRange(m, 2 * q + t)
      && var cf := faces[q];
      && TriangleCorners(m, 2 * q + t) == QuadTriangle(Corners(cf.face, WorldBase(cf.x, cf.y, cf.z, position)), t)
      && FirstVertexNormal(m, 2 * q + t) == Normal(cf.face)
  {
    var m := MeshOf(faces, position);
    MeshOfWellFormed(faces, position);
    MeshOfQuadCorners(faces, position, q);
    QuadTriangleCorners(m, q, t, Corners(faces[q].face, WorldBase(faces[q].x, faces[q].y, faces[q].z, position)));
    MeshOfQuadNormal(faces, position, q, 2 * t);
  }

  /**
   * The orientation of face `f`'s triangles: its normal for an X face, the
   * negated normal otherwise.
   */
  function FaceOrientation(f: Face): Int3 {
    if WindsWithNormal(f) then Normal(f) else Negate(Normal(f))
  }

  /** The edge b - a of face `f`'s first triangle (a, b, c), whatever the cube's position. */
  function FirstEdge(f: Face): Int3 {
    match f
    case PosX => Int3(0, 1, 0)
    case NegX => Int3(0, 0, 1)
    case PosY => Int3(1, 0, 0)
    case NegY => Int3(0, 0, 1)
    case PosZ => Int3(0, 1, 0)
    case NegZ => Int3(1, 0, 0)
  }

  /** The edge c - a of face `f`'s first triangle (a, b, c). */
  function SecondEdge(f: Face): Int3 {
    match f
    case PosX => Int3(0, 1, 1)
    case NegX => Int3(0, 1, 1)
    case PosY => Int3(1, 0, 1)
    case NegY => Int3(1, 0, 1)
    case PosZ => Int3(1, 1, 0)
    case NegZ => Int3(1, 1, 0)
  }

  /**
   * While the chunk position is below 2^20 on every axis, every value the
   * mesher computes for a vertex position is an integer of magnitude at most
   * 2^24: the scaled chunk position, the cell's world base, and each corner.
   * All of them are exact in `f32`, so the integer model agrees with the
   * source there.
   */
  lemma CoordinatesExactInF32(f: Face, x: nat, y: nat, z: nat, position: Int3)
    requires InBounds(x, y, z) && PositionExact(position)
    ensures ExactInF32(Int3(position.x * CHUNK_SIZE, position.y * CHUNK_SIZE, position.z * CHUNK_SIZE))
    ensures ExactInF32(WorldBase(x, y, z, position))
    ensures forall c :: c in Corners(f, WorldBase(x, y, z, position)) ==> ExactInF32(c)
  {
  }

  /** The first triangle of every face has the edges `FirstEdge` and `SecondEdge`. */
  lemma FaceEdges(f: Face, p: Int3)
    ensures var cs := Corners(f, p); Sub(cs[1], cs[0]) == FirstEdge(f) && Sub(cs[2], cs[0]) == SecondEdge(f)
  {
  }

  // The cross product of the first triangle's edges, face by face: the
  // outward normal for the X faces and the inward one for the Y and Z faces.
  // Each `...EdgesCross` lemma evaluates one cross product of constant edges.
  // It takes the edges as parameters equal to constants: a cross product of
  // constant terms such as `FirstEdge(PosX)` is more than the solver's
  // arithmetic settles by itself.

  lemma PosXEdgesCross(u: Int3, v: Int3)
    requires u == Int3(0, 1, 0) && v == Int3(0, 1, 1)
    ensures Cross(u, v) == Int3(1, 0, 0)
  {
  }

  /** The first triangle of the +X face winds about its outward normal. */
  lemma WindingPosX()
    ensures Cross(FirstEdge(PosX), SecondEdge(PosX)) == Normal(PosX)
  {
    PosXEdgesCross(FirstEdge(PosX), SecondEdge(PosX));
  }

  lemma NegXEdgesCross(u: Int3, v: Int3)
    requires u == Int3(0, 0, 1) && v == Int3(0, 1, 1)
    ensures Cross(u, v) == Int3(-1, 0, 0)
  {
  }

  /** The first triangle of the -X face winds about its outward normal. */
  lemma WindingNegX()
    ensures Cross(FirstEdge(NegX), SecondEdge(NegX)) == Normal(NegX)
  {
    NegXEdgesCross(FirstEdge(NegX), SecondEdge(NegX));
  }

  lemma PosYEdgesCross(u: Int3, v: Int3)
    requires u == Int3(1, 0, 0) && v == Int3(1, 0, 1)
    ensures Cross(u, v) == Int3(0, -1, 0)
  {
  }

  /** The first triangle of the +Y face winds about its inward normal. */
  lemma WindingPosY()
    ensures Cross(FirstEdge(PosY), SecondEdge(PosY)) == Negate(Normal(PosY))
  {
    PosYEdgesCross(FirstEdge(PosY), SecondEdge(PosY));
  }

  lemma NegYEdgesCross(u: Int3, v: Int3)
    requires u == Int3(0, 0, 1) && v == Int3(1, 0, 1)
    ensures Cross(u, v) == Int3(0, 1, 0)
  {
  }

  /** The first triangle of the -Y face winds about its inward normal. */
  lemma WindingNegY()
    ensures Cross(FirstEdge(NegY), SecondEdge(NegY)) == Negate(Normal(NegY))
  {
    NegYEdgesCross(FirstEdge(NegY), SecondEdge(NegY));
  }

  lemma PosZEdgesCross(u: Int3, v: Int3)
    requires u == Int3(0, 1, 0) && v == Int3(1, 1, 0)
    ensures Cross(u, v) == Int3(0, 0, -1)
  {
  }

  /** The first triangle of the +Z face winds about its inward normal. */
  lemma WindingPosZ()
    ensures Cross(FirstEdge(PosZ), SecondEdge(PosZ)) == Negate(Normal(PosZ))
  {
    PosZEdgesCross(FirstEdge(PosZ), SecondEdge(PosZ));
  }

  lemma NegZEdgesCross(u: Int3, v: Int3)
    requires u == Int3(1, 0, 0) && v == Int3(1, 1, 0)
    ensures Cross(u, v) == Int3(0, 0, 1)
  {
  }

  /** The first triangle of the -Z face winds about its inward normal. */
  lemma WindingNegZ()
    ensures Cross(FirstEdge(NegZ), SecondEdge(NegZ)) == Negate(Normal(NegZ))
  {
    NegZEdgesCross(FirstEdge(NegZ), SecondEdge(NegZ));
  }

  /** The first triangle of every face is oriented as `FaceOrientation` says. */
  lemma EdgesCross(f: Face)
    ensures Cross(FirstEdge(f), SecondEdge(f)) == FaceOrientation(f)
  {
    if f == PosX {
      WindingPosX();
    } else if f == NegX {
      WindingNegX();
    } else if f == PosY {
      WindingPosY();
    } else if f == NegY {
      WindingNegY();
    } else if f == PosZ {
      WindingPosZ();
    } else {
      WindingNegZ();
    }
  }

  /** Both triangles of face `f`, (a, b, c) and (c, d, a), have the face's orientation. */
  lemma FaceTrianglesOriented(f: Face, p: Int3)
    ensures var cs := Corners(f, p);
      TriangleNormal(cs[0], cs[1], cs[2]) == FaceOrientation(f) && TriangleNormal(cs[2], cs[3], cs[0]) == FaceOrientation(f)
  {
    var cs := Corners(f, p);
    FaceEdges(f, p);
    TriangleNormalByEdges(cs[0], cs[1], cs[2], FirstEdge(f), SecondEdge(f));
    EdgesCross(f);
    SecondTriangleWindsLikeFirst(f, p);
  }

  /** The second triangle (c, d, a) of every face winds like its first triangle (a, b, c). */
  lemma SecondTriangleWindsLikeFirst(f: Face, p: Int3)
    ensures var cs := Corners(f, p); TriangleNormal(cs[2], cs[3], cs[0]) == TriangleNormal(cs[0], cs[1], cs[2])
  {
    var cs := Corners(f, p);
    CornersParallelogram(f, p);
    ParallelogramWinding(cs[0], cs[1], cs[2], cs[3]);
  }

  /**
   * In well-formed buffers whose quad `q` has corners a, b, c, d with both
   * (a, b, c) and (c, d, a) oriented as `o`, triangle `t` is oriented as `o`.
   */
  lemma QuadTriangleOriented(m: ChunkMesh, q: nat, t: nat, cs: seq<Int3>, o: Int3)
    requires WellFormed(m) && q < |m.positions| / 4 && t < 2
    requires m.positions[4 * q .. 4 * q + 4] == cs && |cs| == 4
    requires TriangleNormal(cs[0], cs[1], cs[2]) == o && TriangleNormal(cs[2], cs[3], cs[0]) == o
    ensures TriangleInRange(m, 2 * q + t) && TriangleOrientation(m, 2 * q + t) == o
    ensures FirstVertexNormal(m, 2 * q + t) == m.normals[4 * q + 2 * t]
  {
    QuadTriangleCorners(m, q, t, cs);
    OrientationOfCorners(m, 2 * q + t, QuadTriangle(cs, t));
    QuadTriangleOrientation(cs, t);
  }

  /**
   * In well-formed buffers whose quad `q` has the corners and normal of face
   * `f` at `p`, triangle `t` of that quad is oriented like `f`'s first
   * triangle: along the normal for an X face, against it otherwise.
   */
  lemma QuadTriangleWinding(m: ChunkMesh, q: nat, t: nat, f: Face, p: Int3)
    requires WellFormed(m) && q < |m.positions| / 4 && t < 2
    requires m.positions[4 * q .. 4 * q + 4] == Corners(f, p) && m.normals[4 * q + 2 * t] == Normal(f)
    ensures TriangleInRange(m, 2 * q + t)
    ensures WindsWithNormal(f) ==> TriangleOrientation(m, 2 * q + t) == FirstVertexNormal(m, 2 * q + t)
    ensures !WindsWithNormal(f) ==> TriangleOrientation(m, 2 * q + t) == Negate(FirstVertexNormal(m, 2 * q + t))
  {
    FaceTrianglesOriented(f, p);
    QuadTriangleOriented(m, q, t, Corners(f, p), FaceOrientation(f));
  }

  /** Every triangle of a quad of an X face winds with its vertex normal. */
  lemma MeshOfTriangleWindsWithNormal(faces: seq<CellFace>, position: Int3, q: nat, t: nat)
    requires q < |faces| && t < 2 && WindsWithNormal(faces[q].face)
    ensures var m := MeshOf(faces, position);
      TriangleInRange(m, 2 * q + t) && TriangleOrientation(m, 2 * q + t) == FirstVertexNormal(m, 2 * q + t)
  {
    var cf := faces[q];
    MeshOfWellFormed(faces, position);
    MeshOfQuadCorners(faces, position, q);
    MeshOfQuadNormal(faces, position, q, 2 * t);
    QuadTriangleWinding(MeshOf(faces, position), q, t, cf.face, WorldBase(cf.x, cf.y, cf.z, position));
  }

  /** Every triangle of a quad of a Y or Z face winds against its vertex normal. */
  lemma MeshOfTriangleWindsAgainstNormal(faces: seq<CellFace>, position: Int3, q: nat, t: nat)
    requires q < |faces| && t < 2 && !WindsWithNormal(faces[q].face)
    ensures var m := MeshOf(faces, position);
      TriangleInRange(m, 2 * q + t) && TriangleOrientation(m, 2 * q + t) == Negate(FirstVertexNormal(m, 2 * q + t))
  {
    var cf := faces[q];
    MeshOfWellFormed(faces, position);
    MeshOfQuadCorners(faces, position, q);
    MeshOfQuadNormal(faces, position, q, 2 * t);
    QuadTriangleWinding(MeshOf(faces, position), q, t, cf.face, WorldBase(cf.x, cf.y, cf.z, position));
  }

  /** The visibility test is "the neighbour across the face is outside the chunk or air". */
  lemma VisibleIffNeighbourOpen(cells: seq<BlockId>, x: nat, y: nat, z: nat, f: Face)
    requires IsGrid(cells) && InBounds(x, y, z)
    ensures var n := Neighbour(x, y, z, f);
      Visible(cells, x, y, z, f) <==> !InBounds(n.x, n.y, n.z) || Get(cells, n.x, n.y, n.z) == AIR
  {
  }

  /** No entry of `s` occurs twice. */
  predicate NoRepeats<T(==)>(s: seq<T>) {
    forall i, j | 0 <= i < j < |s| :: s[i] != s[j]
  }

  /** The faces along `dirs` are exactly the visible faces of the cell in those directions. */
  lemma {:induction false} FacesAlongMember(cells: seq<BlockId>, x: nat, y: nat, z: nat, dirs: seq<Face>, cf: CellFace)
    requires IsGrid(cells) && InBounds(x, y, z)
    ensures cf in FacesAlong(cells, x, y, z, dirs) <==>
      cf.x == x && cf.y == y && cf.z == z && cf.face in dirs && Visible(cells, x, y, z, cf.face)
  {
    if dirs != [] {
      FacesAlongMember(cells, x, y, z, dirs[1..], cf);
      assert dirs == [dirs[0]] + dirs[1..];
    }
  }

  /** Testing each direction at most once emits each face at most once. */
  lemma {:induction false} FacesAlongDistinct(cells: seq<BlockId>, x: nat, y: nat, z: nat, dirs: seq<Face>)
    requires IsGrid(cells) && InBounds(x, y, z) && NoRepeats(dirs)
    ensures var fs := FacesAlong(cells, x, y, z, dirs); |fs| <= |dirs| && NoRepeats(fs)
  {
    if dirs != [] {
      var head := FaceIfVisible(cells, x, y, z, dirs[0]);
      var rest := FacesAlong(cells, x, y, z, dirs[1..]);
      assert NoRepeats(dirs[1..]) by {
        forall i, j | 0 <= i < j < |dirs[1..]| ensures dirs[1..][i] != dirs[1..][j] {
          assert dirs[1..][i] == dirs[i + 1] && dirs[1..][j] == dirs[j + 1];
        }
      }
      FacesAlongDistinct(cells, x, y, z, dirs[1..]);
      if head != [] {
        FacesAlongMember(cells, x, y, z, dirs[1..], head[0]);
        assert dirs[0] !in dirs[1..] by {
          forall i | 0 <= i < |dirs[1..]| ensures dirs[1..][i] != dirs[0] {
            assert dirs[1..][i] == dirs[i + 1];
          }
        }
        var fs := head + rest;
        forall i, j | 0 <= i < j < |fs| ensures fs[i] != fs[j] {
          if i == 0 {
            assert fs[j] == rest[j - 1];
          } else {
            assert fs[i] == rest[i - 1] && fs[j] == rest[j - 1];
          }
        }
      }
    }
  }

  /** A cell emits face `f` exactly when it is solid and the face is visible. */
  lemma CellFacesMember(cells: seq<BlockId>, x: nat, y: nat, z: nat, cf: CellFace)
    requires IsGrid(cells) && InBounds(x, y, z)
    ensures cf in CellFaces(cells, x, y, z) <==> cf.x == x && cf.y == y && cf.z == z && Exposed(cells, cf)
  {
    FacesAlongMember(cells, x, y, z, Directions, cf);
    assert cf.face in Directions by {
      match cf.face {
        case PosX => assert Directions[0] == PosX;
        case NegX => assert Directions[1] == NegX;
        case PosY => assert Directions[2] == PosY;
        case NegY => assert Directions[3] == NegY;
        case PosZ => assert Directions[4] == PosZ;
        case NegZ => assert Directions[5] == NegZ;
      }
    }
  }

  /**
   * The faces emitted by the first `k` cells are exactly the visible faces
   * of the solid cells among them.
   */
  lemma {:induction false} EmittedFacesMember(cells: seq<BlockId>, k: nat, cf: CellFace)
    requires IsGrid(cells) && k <= CHUNK_VOLUME
    ensures cf in EmittedFaces(cells, k) <==> Exposed(cells, cf) && Index(cf.x, cf.y, cf.z) < k
  {
    if k > 0 {
      var j: nat := k - 1;
      EmittedFacesMember(cells, j, cf);
      CellFacesAtIndex(cells, j, cf);
      EmittedFacesSnoc(cells, j);
    }
  }

  /** The cell at flat index `i` emits exactly the exposed faces whose cell has index `i`. */
  lemma CellFacesAtIndex(cells: seq<BlockId>, i: nat, cf: CellFace)
    requires IsGrid(cells) && i < CHUNK_VOLUME
    ensures var c := Coords(i);
      cf in CellFaces(cells, c.x, c.y, c.z) <==> Exposed(cells, cf) && Index(cf.x, cf.y, cf.z) == i
  {
    var c := Coords(i);
    CellFacesMember(cells, c.x, c.y, c.z, cf);
    if InBounds(cf.x, cf.y, cf.z) {
      IndexInjective(cf.x, cf.y, cf.z, c.x, c.y, c.z);
    }
  }

  /** Within one cell the six directions are tested once each, so no face repeats. */
  lemma CellFacesDistinct(cells: seq<BlockId>, x: nat, y: nat, z: nat)
    requires IsGrid(cells) && InBounds(x, y, z)
    ensures var fs := CellFaces(cells, x, y, z); |fs| <= 6 && NoRepeats(fs)
  {
    FacesAlongDistinct(cells, x, y, z, Directions);
  }

  /** Joining two lists without repeats and without common entries gives a list without repeats. */
  lemma ConcatNoRepeats<T>(a: seq<T>, b: seq<T>)
    requires NoRepeats(a) && NoRepeats(b) && forall e | e in a :: e !in b
    ensures NoRepeats(a + b)
  {
    var s := a + b;
    forall i, j | 0 <= i < j < |s| ensures s[i] != s[j] {
      if j < |a| {
        assert s[i] == a[i] && s[j] == a[j];
      } else if i >= |a| {
        assert s[i] == b[i - |a|] && s[j] == b[j - |a|];
      } else {
        assert s[i] == a[i] && a[i] in a && s[j] == b[j - |a|];
      }
    }
  }

  /** No face is emitted twice. */
  lemma {:induction false} EmittedFacesDistinct(cells: seq<BlockId>, k: nat)
    requires IsGrid(cells) && k <= CHUNK_VOLUME
    ensures NoRepeats(EmittedFaces(cells, k))
  {
    if k > 0 {
      var j: nat := k - 1;
      var c := Coords(j);
      var prev := EmittedFaces(cells, j);
      var here := CellFaces(cells, c.x, c.y, c.z);
      EmittedFacesDistinct(cells, j);
      CellFacesDistinct(cells, c.x, c.y, c.z);
      forall e | e in prev
        ensures e !in here
      {
        EmittedFacesMember(cells, j, e);
        CellFacesMember(cells, c.x, c.y, c.z, e);
      }
      ConcatNoRepeats(prev, here);
      EmittedFacesSnoc(cells, j);
    }
  }

  /** Visiting the cell at flat index j appends that cell's faces. */
  lemma EmittedFacesSnoc(cells: seq<BlockId>, j: nat)
    requires IsGrid(cells) && j < CHUNK_VOLUME
    ensures var c := Coords(j);
      EmittedFaces(cells, j + 1) == EmittedFaces(cells, j) + CellFaces(cells, c.x, c.y, c.z)
  {
  }

  /** At most six faces per cell. */
  lemma {:induction false} EmittedFacesBound(cells: seq<BlockId>, k: nat)
    requires IsGrid(cells) && k <= CHUNK_VOLUME
    ensures |EmittedFaces(cells, k)| <= 6 * k
  {
    if k > 0 {
      var j: nat := k - 1;
      EmittedFacesBound(cells, j);
      EmittedFacesSnoc(cells, j);
      var c := Coords(j);
      assert |EmittedFaces(cells, k)| == |EmittedFaces(cells, j)| + |CellFaces(cells, c.x, c.y, c.z)|;
    }
  }

  /** Visiting cell (x, y, z) extends the faces of the cells before it by that cell's faces. */
  lemma EmittedFacesStep(cells: seq<BlockId>, x: nat, y: nat, z: nat)
    requires IsGrid(cells) && InBounds(x, y, z)
    ensures var k := Index(x, y, z);
      && k < CHUNK_VOLUME
      && EmittedFaces(cells, k + 1) == EmittedFaces(cells, k) + CellFaces(cells, x, y, z)
      && |EmittedFaces(cells, k)| <= 6 * k
  {
    CoordsOfIndex(x, y, z);
    EmittedFacesBound(cells, Index(x, y, z));
  }

  /** A solid cell's faces are its six visibility tests in the mesher's order. */
  lemma CellFacesUnrolled(cells: seq<BlockId>, x: nat, y: nat, z: nat)
    requires IsGrid(cells) && InBounds(x, y, z) && Get(cells, x, y, z) != AIR
    ensures CellFaces(cells, x, y, z) ==
      FaceIfVisible(cells, x, y, z, PosX) + (FaceIfVisible(cells, x, y, z, NegX) +
      (FaceIfVisible(cells, x, y, z, PosY) + (FaceIfVisible(cells, x, y, z, NegY) +
      (FaceIfVisible(cells, x, y, z, PosZ) + FaceIfVisible(cells, x, y, z, NegZ)))))
  {
    var d1, d2, d3 := [NegX, PosY, NegY, PosZ, NegZ], [PosY, NegY, PosZ, NegZ], [NegY, PosZ, NegZ];
    var d4, d5 := [PosZ, NegZ], [NegZ];
    assert Directions[1..] == d1 && d1[1..] == d2 && d2[1..] == d3 && d3[1..] == d4 && d4[1..] == d5;
    var f5 := FacesAlong(cells, x, y, z, d5);
    assert f5 == FaceIfVisible(cells, x, y, z, NegZ) + FacesAlong(cells, x, y, z, d5[1..]);
    assert f5 == FaceIfVisible(cells, x, y, z, NegZ);
    var f4 := FacesAlong(cells, x, y, z, d4);
    assert f4 == FaceIfVisible(cells, x, y, z, PosZ) + f5;
    var f3 := FacesAlong(cells, x, y, z, d3);
    assert f3 == FaceIfVisible(cells, x, y, z, NegY) + f4;
    var f2 := FacesAlong(cells, x, y, z, d2);
    assert f2 == FaceIfVisible(cells, x, y, z, PosY) + f3;
    var f1 := FacesAlong(cells, x, y, z, d1);
    assert f1 == FaceIfVisible(cells, x, y, z, NegX) + f2;
  }

  /** The length form of `EmittedFacesStep`, stated at the successor coordinate. */
  lemma EmittedFacesLengthStep(cells: seq<BlockId>, x: nat, y: nat, z: nat)
    requires IsGrid(cells) && InBounds(x, y, z)
    ensures Index(x + 1, y, z) == Index(x, y, z) + 1 <= CHUNK_VOLUME
    ensures |EmittedFaces(cells, Index(x + 1, y, z))| == |EmittedFaces(cells, Index(x, y, z))| + |CellFaces(cells, x, y, z)|
  {
    var k := Index(x, y, z);
    EmittedFacesStep(cells, x, y, z);
    assert |EmittedFaces(cells, k + 1)| == |EmittedFaces(cells, k)| + |CellFaces(cells, x, y, z)|;
  }
}
