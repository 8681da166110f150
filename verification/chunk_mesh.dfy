/**
 * The chunk mesh (pkg/chunk/chunk_mesh.go): a growable vertex buffer of
 * 11 floats per vertex (position, normal, texture coordinate, colour) and an
 * index buffer of 6 indices per quad, and the specification of what
 * `GenerateMesh` emits for a chunk as a function of what the chunk sees.
 *
 * Vertex values are `real`: every one of them is an integer position plus a
 * 0/1 corner offset, a 0/±1 normal component, a 0/1 texture coordinate or
 * one of the colour constants.
 */
module ChunkMeshes {
  import opened Options
  import opened Voxels
  import opened ChunkPositions
  import opened ChunkGrid

  /** Floats per vertex: position 3, normal 3, texture coordinate 2, colour 3. */
  const VertexStride: int := 11

  /** A corner of a unit face: its offset from the cell's lower corner and
      its texture coordinate. */
  datatype Corner = Corner(dx: int, dy: int, dz: int, u: int, v: int) {
    /** The corner's offset from the cell's lower corner. */
    function Offset(): VoxelPosition {
      VoxelPosition(dx, dy, dz)
    }
  }

  /** The corrected corner table: the source's corners for Left, Right,
      Front and Back, with the second and fourth positions of Top and Bottom
      swapped, so that every quad is wound counter-clockwise when seen from
      outside the cell. The mesh itself is built from the source's table,
      FaceVerticesAsWritten; this one is what a fix would put in its place. */
  function GetFaceVertices(face: VoxelFace): (cs: seq<Corner>)
    ensures |cs| == 4
  {
    if face == Top then [Corner(0, 1, 0, 0, 0), Corner(0, 1, 1, 1, 0), Corner(1, 1, 1, 1, 1), Corner(1, 1, 0, 0, 1)]
    else if face == Bottom then [Corner(0, 0, 1, 0, 0), Corner(0, 0, 0, 1, 0), Corner(1, 0, 0, 1, 1), Corner(1, 0, 1, 0, 1)]
    else FaceVerticesAsWritten(face)
  }

  /** The corner table exactly as the source writes it; AddFace builds every
      face from it. */
  function FaceVerticesAsWritten(face: VoxelFace): (cs: seq<Corner>)
    ensures |cs| == 4
  {
    if face == Top then [Corner(0, 1, 0, 0, 0), Corner(1, 1, 0, 1, 0), Corner(1, 1, 1, 1, 1), Corner(0, 1, 1, 0, 1)]
    else if face == Bottom then [Corner(0, 0, 1, 0, 0), Corner(1, 0, 1, 1, 0), Corner(1, 0, 0, 1, 1), Corner(0, 0, 0, 0, 1)]
    else if face == Left then [Corner(0, 0, 0, 0, 0), Corner(0, 0, 1, 1, 0), Corner(0, 1, 1, 1, 1), Corner(0, 1, 0, 0, 1)]
    else if face == Right then [Corner(1, 0, 1, 0, 0), Corner(1, 0, 0, 1, 0), Corner(1, 1, 0, 1, 1), Corner(1, 1, 1, 0, 1)]
    else if face == Front then [Corner(0, 0, 1, 0, 0), Corner(1, 0, 1, 1, 0), Corner(1, 1, 1, 1, 1), Corner(0, 1, 1, 0, 1)]
    else if face == Back then [Corner(1, 0, 0, 0, 0), Corner(0, 0, 0, 1, 0), Corner(0, 1, 0, 1, 1), Corner(1, 1, 0, 0, 1)]
    else [Corner(0, 0, 0, 0, 0), Corner(0, 0, 0, 0, 0), Corner(0, 0, 0, 0, 0), Corner(0, 0, 0, 0, 0)]
  }

  predicate IsBit(n: int) {
    n == 0 || n == 1
  }

  /** The corner lies on the face's side of the unit cell: along the face's
      axis its coordinate is 1 for a positive face and 0 for a negative one. */
  predicate OnFacePlane(face: VoxelFace, c: VoxelPosition) {
    var o := GetFaceOffset(face);
    && (o.x != 0 ==> c.x == (o.x + 1) / 2)
    && (o.y != 0 ==> c.y == (o.y + 1) / 2)
    && (o.z != 0 ==> c.z == (o.z + 1) / 2)
  }

  /** The texture coordinates of the four corners, in order. */
  const UnitSquare: seq<(int, int)> := [(0, 0), (1, 0), (1, 1), (0, 1)]

  /** Every corner of every face lies on that face's plane, has 0/1
      coordinates, the four corners are four distinct points, and their
      texture coordinates run round the unit square. */
  lemma FaceVerticesShape(face: VoxelFace, i: int, j: int)
    requires IsFace(face) && 0 <= i < 4 && 0 <= j < 4
    ensures var c := GetFaceVertices(face)[i];
            && OnFacePlane(face, c.Offset())
            && IsBit(c.dx) && IsBit(c.dy) && IsBit(c.dz)
            && (c.u, c.v) == UnitSquare[i]
    ensures i != j ==> GetFaceVertices(face)[i] != GetFaceVertices(face)[j]
  {
  }

  /** The same holds for the source's table, from which the mesh is built. */
  lemma FaceVerticesAsWrittenShape(face: VoxelFace, i: int, j: int)
    requires IsFace(face) && 0 <= i < 4 && 0 <= j < 4
    ensures var c := FaceVerticesAsWritten(face)[i];
            && OnFacePlane(face, c.Offset())
            && IsBit(c.dx) && IsBit(c.dy) && IsBit(c.dz)
            && (c.u, c.v) == UnitSquare[i]
    ensures i != j ==> FaceVerticesAsWritten(face)[i] != FaceVerticesAsWritten(face)[j]
  {
  }

  /** The normal of the triangle through corners a, b, c (right-hand rule),
      in integer coordinates. */
  function TriangleNormal(a: VoxelPosition, b: VoxelPosition, c: VoxelPosition): VoxelPosition {
    var (ux, uy, uz) := (b.x - a.x, b.y - a.y, b.z - a.z);
    var (vx, vy, vz) := (c.x - a.x, c.y - a.y, c.z - a.z);
    VoxelPosition(uy * vz - uz * vy, uz * vx - ux * vz, ux * vy - uy * vx)
  }

  /** Both triangles the quad's indices 0,1,2 and 2,3,0 draw are wound
      counter-clockwise seen from outside: their normal is the face offset. */
  predicate WoundOutward(cs: seq<Corner>, face: VoxelFace)
    requires |cs| == 4
  {
    && TriangleNormal(cs[0].Offset(), cs[1].Offset(), cs[2].Offset()) == GetFaceOffset(face)
    && TriangleNormal(cs[2].Offset(), cs[3].Offset(), cs[0].Offset()) == GetFaceOffset(face)
  }

  /** Every face of the table the mesh uses is wound outward. */
  lemma {:induction false} FaceVerticesWoundOutward(face: VoxelFace)
    requires IsFace(face)
    ensures WoundOutward(GetFaceVertices(face), face)
  {
    if face == Top { TopWoundOutward(); }
    else if face == Bottom { BottomWoundOutward(); }
    else if face == Left { LeftWoundOutward(); }
    else if face == Right { RightWoundOutward(); }
    else if face == Front { FrontWoundOutward(); }
    else { BackWoundOutward(); }
  }

  lemma TopWoundOutward()
    ensures WoundOutward(GetFaceVertices(Top), Top)
  {
    assert GetFaceOffset(Top) == VoxelPosition(0, 1, 0);
    assert GetFaceVertices(Top) == [Corner(0, 1, 0, 0, 0), Corner(0, 1, 1, 1, 0), Corner(1, 1, 1, 1, 1), Corner(1, 1, 0, 0, 1)];
  }

  lemma BottomWoundOutward()
    ensures WoundOutward(GetFaceVertices(Bottom), Bottom)
  {
    assert GetFaceOffset(Bottom) == VoxelPosition(0, -1, 0);
    assert GetFaceVertices(Bottom) == [Corner(0, 0, 1, 0, 0), Corner(0, 0, 0, 1, 0), Corner(1, 0, 0, 1, 1), Corner(1, 0, 1, 0, 1)];
  }

  lemma LeftWoundOutward()
    ensures WoundOutward(GetFaceVertices(Left), Left)
  {
    assert GetFaceOffset(Left) == VoxelPosition(-1, 0, 0);
    assert GetFaceVertices(Left) == [Corner(0, 0, 0, 0, 0), Corner(0, 0, 1, 1, 0), Corner(0, 1, 1, 1, 1), Corner(0, 1, 0, 0, 1)];
  }

  lemma RightWoundOutward()
    ensures WoundOutward(GetFaceVertices(Right), Right)
  {
    assert GetFaceOffset(Right) == VoxelPosition(1, 0, 0);
    assert GetFaceVertices(Right) == [Corner(1, 0, 1, 0, 0), Corner(1, 0, 0, 1, 0), Corner(1, 1, 0, 1, 1), Corner(1, 1, 1, 0, 1)];
  }

  lemma FrontWoundOutward()
    ensures WoundOutward(GetFaceVertices(Front), Front)
  {
    assert GetFaceOffset(Front) == VoxelPosition(0, 0, 1);
    assert GetFaceVertices(Front) == [Corner(0, 0, 1, 0, 0), Corner(1, 0, 1, 1, 0), Corner(1, 1, 1, 1, 1), Corner(0, 1, 1, 0, 1)];
  }

  lemma BackWoundOutward()
    ensures WoundOutward(GetFaceVertices(Back), Back)
  {
    assert GetFaceOffset(Back) == VoxelPosition(0, 0, -1);
    assert GetFaceVertices(Back) == [Corner(1, 0, 0, 0, 0), Corner(0, 0, 0, 1, 0), Corner(0, 1, 0, 1, 1), Corner(1, 1, 0, 0, 1)];
  }

  /** As written, Left, Right, Front and Back are wound outward but Top and
      Bottom are wound inward: with counter-clockwise front faces and back
      face culling, the tops and bottoms of voxels are culled when seen
      from outside. */
  lemma FaceVerticesAsWrittenWinding()
    ensures WoundOutward(FaceVerticesAsWritten(Left), Left)
    ensures WoundOutward(FaceVerticesAsWritten(Right), Right)
    ensures WoundOutward(FaceVerticesAsWritten(Front), Front)
    ensures WoundOutward(FaceVerticesAsWritten(Back), Back)
    ensures TriangleNormal(FaceVerticesAsWritten(Top)[0].Offset(), FaceVerticesAsWritten(Top)[1].Offset(),
                   FaceVerticesAsWritten(Top)[2].Offset())
         == GetFaceOffset(Bottom)
    ensures TriangleNormal(FaceVerticesAsWritten(Bottom)[0].Offset(), FaceVerticesAsWritten(Bottom)[1].Offset(),
                   FaceVerticesAsWritten(Bottom)[2].Offset())
         == GetFaceOffset(Top)
  {
    FaceVerticesSameCorners(Left);
    LeftWoundOutward();
    FaceVerticesSameCorners(Right);
    RightWoundOutward();
    FaceVerticesSameCorners(Front);
    FrontWoundOutward();
    FaceVerticesSameCorners(Back);
    BackWoundOutward();
    TopAsWrittenWoundInward();
    BottomAsWrittenWoundInward();
  }

  lemma TopAsWrittenWoundInward()
    ensures TriangleNormal(FaceVerticesAsWritten(Top)[0].Offset(), FaceVerticesAsWritten(Top)[1].Offset(),
                   FaceVerticesAsWritten(Top)[2].Offset())
         == GetFaceOffset(Bottom)
  {
    AsWrittenTable(Top);
    assert GetFaceOffset(Bottom) == VoxelPosition(0, -1, 0);
  }

  lemma BottomAsWrittenWoundInward()
    ensures TriangleNormal(FaceVerticesAsWritten(Bottom)[0].Offset(), FaceVerticesAsWritten(Bottom)[1].Offset(),
                   FaceVerticesAsWritten(Bottom)[2].Offset())
         == GetFaceOffset(Top)
  {
    AsWrittenTable(Bottom);
    assert GetFaceOffset(Top) == VoxelPosition(0, 1, 0);
  }

  lemma AsWrittenTable(face: VoxelFace)
    requires IsFace(face)
    ensures var o := GetFaceOffset(face);
            && (face == Top ==> FaceVerticesAsWritten(face) == [Corner(0, 1, 0, 0, 0), Corner(1, 1, 0, 1, 0), Corner(1, 1, 1, 1, 1), Corner(0, 1, 1, 0, 1)] && o == VoxelPosition(0, 1, 0))
            && (face == Bottom ==> FaceVerticesAsWritten(face) == [Corner(0, 0, 1, 0, 0), Corner(1, 0, 1, 1, 0), Corner(1, 0, 0, 1, 1), Corner(0, 0, 0, 0, 1)] && o == VoxelPosition(0, -1, 0))
            && (face == Left ==> FaceVerticesAsWritten(face) == [Corner(0, 0, 0, 0, 0), Corner(0, 0, 1, 1, 0), Corner(0, 1, 1, 1, 1), Corner(0, 1, 0, 0, 1)] && o == VoxelPosition(-1, 0, 0))
            && (face == Right ==> FaceVerticesAsWritten(face) == [Corner(1, 0, 1, 0, 0), Corner(1, 0, 0, 1, 0), Corner(1, 1, 0, 1, 1), Corner(1, 1, 1, 0, 1)] && o == VoxelPosition(1, 0, 0))
            && (face == Front ==> FaceVerticesAsWritten(face) == [Corner(0, 0, 1, 0, 0), Corner(1, 0, 1, 1, 0), Corner(1, 1, 1, 1, 1), Corner(0, 1, 1, 0, 1)] && o == VoxelPosition(0, 0, 1))
            && (face == Back ==> FaceVerticesAsWritten(face) == [Corner(1, 0, 0, 0, 0), Corner(0, 0, 0, 1, 0), Corner(0, 1, 0, 1, 1), Corner(1, 1, 0, 0, 1)] && o == VoxelPosition(0, 0, -1))
  {
  }

  /** The two tables hold the same corners with the same texture coordinates
      for Top and Bottom, only in the other order, and are equal otherwise. */
  lemma FaceVerticesSameCorners(face: VoxelFace)
    ensures !(face == Top || face == Bottom) ==> GetFaceVertices(face) == FaceVerticesAsWritten(face)
    ensures face == Top || face == Bottom ==>
              var (cs, ws) := (GetFaceVertices(face), FaceVerticesAsWritten(face));
              cs[0] == ws[0] && cs[2] == ws[2]
              && cs[1].dx == ws[3].dx && cs[1].dy == ws[3].dy && cs[1].dz == ws[3].dz
              && cs[3].dx == ws[1].dx && cs[3].dy == ws[1].dy && cs[3].dz == ws[1].dz
  {
    if face == Top || face == Bottom {
      AsWrittenTable(face);
    }
  }

  datatype Color = Color(r: real, g: real, b: real)

  const White := Color(1.0, 1.0, 1.0)

  /** Each named solid type has its own colour; Air and unnamed types are
      drawn white. */
  function GetVoxelTypeColor(t: VoxelType): (c: Color)
    ensures c == White <==> t == Air || !IsNamedType(t)
  {
    if t == Stone then Color(0.5, 0.5, 0.5)
    else if t == Dirt then Color(0.55, 0.35, 0.2)
    else if t == Grass then Color(0.2, 0.8, 0.2)
    else if t == Sand then Color(0.95, 0.9, 0.6)
    else if t == Water then Color(0.2, 0.4, 0.9)
    else if t == Wood then Color(0.6, 0.4, 0.2)
    else if t == Leaves then Color(0.15, 0.6, 0.15)
    else if t == Glass then Color(0.7, 0.9, 1.0)
    else if t == Brick then Color(0.7, 0.3, 0.2)
    else White
  }

  /** The 11 floats of one vertex of a face of the cell at p. */
  function VertexRecord(p: VoxelPosition, face: VoxelFace, c: Corner, color: Color): (r: seq<real>)
    ensures |r| == VertexStride
  {
    var n := GetFaceNormal(face);
    [ p.x as real + c.dx as real, p.y as real + c.dy as real, p.z as real + c.dz as real,
      n.x, n.y, n.z,
      c.u as real, c.v as real,
      color.r, color.g, color.b ]
  }

  /** The vertex records of the first k corners of a face. */
  function CornerRecords(p: VoxelPosition, face: VoxelFace, t: VoxelType, k: nat): (r: seq<real>)
    requires k <= 4
    ensures |r| == VertexStride * k
  {
    if k == 0 then []
    else CornerRecords(p, face, t, k - 1) + VertexRecord(p, face, FaceVerticesAsWritten(face)[k - 1], GetVoxelTypeColor(t))
  }

  /** The i-th record of a face is the vertex record of its i-th corner. */
  lemma {:induction false} CornerRecordAt(p: VoxelPosition, face: VoxelFace, t: VoxelType, k: nat, i: nat)
    requires k <= 4 && i < k
    ensures CornerRecords(p, face, t, k)[VertexStride * i..VertexStride * (i + 1)]
         == VertexRecord(p, face, FaceVerticesAsWritten(face)[i], GetVoxelTypeColor(t))
  {
    var prefix := CornerRecords(p, face, t, k - 1);
    var last := VertexRecord(p, face, FaceVerticesAsWritten(face)[k - 1], GetVoxelTypeColor(t));
    var whole := CornerRecords(p, face, t, k);
    assert whole == prefix + last;
    assert |prefix| == VertexStride * (k - 1);
    if i < k - 1 {
      CornerRecordAt(p, face, t, k - 1, i);
      assert VertexStride * (i + 1) <= |prefix|;
      assert whole[VertexStride * i..VertexStride * (i + 1)] == prefix[VertexStride * i..VertexStride * (i + 1)];
    } else {
      assert VertexStride * i == |prefix|;
      assert whole[VertexStride * i..VertexStride * (i + 1)] == last;
    }
  }

  /** Each vertex of a face sits at the cell plus the offset of the source
      table's corner, carries the face normal, that corner's texture
      coordinate and the type's colour. */
  lemma {:induction false} CornerRecordsLayout(p: VoxelPosition, face: VoxelFace, t: VoxelType, i: nat)
    requires i < 4
    ensures var r, c := CornerRecords(p, face, t, 4)[VertexStride * i..VertexStride * (i + 1)], FaceVerticesAsWritten(face)[i];
            var n, col := GetFaceNormal(face), GetVoxelTypeColor(t);
            r == [ (p.x + c.dx) as real, (p.y + c.dy) as real, (p.z + c.dz) as real,
                   n.x, n.y, n.z, c.u as real, c.v as real, col.r, col.g, col.b ]
  {
    CornerRecordAt(p, face, t, 4, i);
  }

  /** The six indices of a quad whose first vertex is `base`: the triangles
      base+0,1,2 and base+2,3,0. */
  function QuadIndices(base: int): (r: seq<int>)
    ensures |r| == 6
    ensures forall i :: 0 <= i < 6 ==> base <= r[i] < base + 4
  {
    [base + 0, base + 1, base + 2, base + 2, base + 3, base + 0]
  }

  /** One face the mesh holds: the cell's world position, the face, and the
      voxel type that colours it. */
  datatype FaceEmit = FaceEmit(position: VoxelPosition, face: VoxelFace, voxelType: VoxelType)

  /** Floats one face adds to the vertex buffer: four vertex records. */
  const FaceStride: int := 4 * VertexStride

  /** The four vertex records of a face the mesh holds. */
  function FaceRecords(e: FaceEmit): (r: seq<real>)
    ensures |r| == FaceStride
  {
    CornerRecords(e.position, e.face, e.voxelType, 4)
  }

  /** Which face of the list, and which float of that face's records, float
      i of a vertex buffer holding n faces is. */
  function FloatSlot(i: int, n: int): (s: (int, int))
    requires 0 <= i < FaceStride * n
    ensures 0 <= s.0 < n && 0 <= s.1 < FaceStride && i == FaceStride * s.0 + s.1
  {
    (i / FaceStride, i % FaceStride)
  }

  /** The vertex buffer of a mesh that holds the faces es: face k's four
      records occupy floats FaceStride * k .. FaceStride * (k + 1). */
  function EmitVertices(es: seq<FaceEmit>): (r: seq<real>)
    ensures |r| == FaceStride * |es|
  {
    seq(FaceStride * |es|, i requires 0 <= i < FaceStride * |es| =>
      var s := FloatSlot(i, |es|);
      FaceRecords(es[s.0])[s.1])
  }

  /** The index buffer of a mesh that holds the faces es: face k's quad over
      vertices 4k .. 4k + 3 occupies indices 6k .. 6k + 5. */
  function EmitIndices(es: seq<FaceEmit>): (r: seq<int>)
    ensures |r| == 6 * |es|
  {
    seq(6 * |es|, i requires 0 <= i < 6 * |es| => QuadIndices(4 * (i / 6))[i % 6])
  }

  /** Every index names one of the 4 * |es| vertices. */
  lemma {:induction false} EmitIndicesInRange(es: seq<FaceEmit>)
    ensures forall i :: 0 <= i < |EmitIndices(es)| ==> 0 <= EmitIndices(es)[i] < 4 * |es|
  {
    forall i | 0 <= i < |EmitIndices(es)|
      ensures 0 <= EmitIndices(es)[i] < 4 * |es|
    {
      assert i / 6 < |es|;
    }
  }

  /** Appending a face to the list appends its records and its quad, whose
      first vertex is the vertex count before the append. */
  lemma {:induction false} EmitAppend(es: seq<FaceEmit>, e: FaceEmit)
    ensures EmitVertices(es + [e]) == EmitVertices(es) + CornerRecords(e.position, e.face, e.voxelType, 4)
    ensures EmitIndices(es + [e]) == EmitIndices(es) + QuadIndices(|EmitVertices(es)| / VertexStride)
  {
    var n := |es|;
    var v, v' := EmitVertices(es), EmitVertices(es + [e]);
    forall i | 0 <= i < |v'|
      ensures v'[i] == (v + FaceRecords(e))[i]
    {
      var s := FloatSlot(i, n + 1);
      if s.0 < n {
        assert FloatSlot(i, n) == s by {
          DivisionIsUnique(i, FaceStride, s.0, s.1);
        }
      } else {
        assert i - FaceStride * n == s.1;
      }
    }
    DivisionIsUnique(|v|, VertexStride, 4 * n, 0);
    var w, w' := EmitIndices(es), EmitIndices(es + [e]);
    forall i | 0 <= i < |w'|
      ensures w'[i] == (w + QuadIndices(4 * n))[i]
    {
      if i >= 6 * n {
        DivisionIsUnique(i, 6, n, i - 6 * n);
      }
    }
  }

  class ChunkMesh {
    var vertices: seq<real>
    var indices: seq<int>
    var vertexCount: int
    var indexCount: int
    /** Graphics handles; 0 means none. */
    var vao: int
    var vbo: int
    var ebo: int

    /** The buffers hold exactly the faces es, in order. */
    ghost predicate Holds(es: seq<FaceEmit>)
      reads this
    {
      && vertices == EmitVertices(es)
      && indices == EmitIndices(es)
      && vertexCount == 4 * |es|
      && indexCount == 6 * |es|
    }

    /** The buffer invariant: 11 floats per vertex, 4 vertices and 6 indices
        per quad, and every index names a vertex. */
    ghost predicate Valid()
      reads this
    {
      && |vertices| == VertexStride * vertexCount
      && |indices| == indexCount
      && vertexCount % 4 == 0
      && 2 * indexCount == 3 * vertexCount
      && forall i :: 0 <= i < |indices| ==> 0 <= indices[i] < vertexCount
    }

    constructor ()
      ensures Holds([]) && Valid()
      ensures vao == 0 && vbo == 0 && ebo == 0
    {
      vertices, indices := [], [];
      vertexCount, indexCount := 0, 0;
      vao, vbo, ebo := 0, 0, 0;
    }

    /** Appends the four vertices of one face of the cell at `position` and
        the two triangles over them. */
    method AddFace(position: VoxelPosition, face: VoxelFace, voxelType: VoxelType)
      modifies this
      ensures vertices == old(vertices) + CornerRecords(position, face, voxelType, 4)
      ensures indices == old(indices) + QuadIndices(|old(vertices)| / VertexStride)
      ensures vertexCount == old(vertexCount) + 4 && indexCount == old(indexCount) + 6
      ensures vao == old(vao) && vbo == old(vbo) && ebo == old(ebo)
      ensures old(Valid()) ==> Valid()
    {
      var corners := FaceVerticesAsWritten(face);
      var color := GetVoxelTypeColor(voxelType);
      var baseIndex := |vertices| / VertexStride;
      if Valid() {
        DivisionIsUnique(|vertices|, VertexStride, vertexCount, 0);
      }
      var i := 0;
      while i < 4
        invariant 0 <= i <= 4
        invariant vertices == old(vertices) + CornerRecords(position, face, voxelType, i)
        invariant indices == old(indices)
        invariant vertexCount == old(vertexCount) && indexCount == old(indexCount)
        invariant vao == old(vao) && vbo == old(vbo) && ebo == old(ebo)
      {
        vertices := vertices + VertexRecord(position, face, corners[i], color);
        i := i + 1;
      }
      indices := indices + [baseIndex + 0, baseIndex + 1, baseIndex + 2, baseIndex + 2, baseIndex + 3, baseIndex + 0];
      vertexCount := vertexCount + 4;
      indexCount := indexCount + 6;
    }

    /** Empties both buffers, keeping the handles. */
    method Clear()
      modifies this
      ensures Holds([]) && Valid()
      ensures vao == old(vao) && vbo == old(vbo) && ebo == old(ebo)
    {
      vertices := [];
      indices := [];
      vertexCount := 0;
      indexCount := 0;
    }

    /** A mesh is empty when it has no indices, that is when it holds no
        face at all. */
    method IsEmpty() returns (empty: bool)
      ensures empty <==> indexCount == 0
      ensures forall es :: Holds(es) ==> (empty <==> es == [])
    {
      empty := indexCount == 0;
    }
  }

  /** A mesh holding any list of faces satisfies the buffer invariant. */
  lemma {:induction false} HoldsIsValid(m: ChunkMesh, es: seq<FaceEmit>)
    requires m.Holds(es)
    ensures m.Valid()
  {
  }


  /** The face of the cell at local (x, y, z) is drawn when the voxel one step
      beyond it, read through the neighbour when it lies outside the chunk,
      is air or transparent. */
  predicate IsFaceVisible(nb: Neighborhood, x: int, y: int, z: int, face: VoxelFace)
    requires nb.Valid()
  {
    var o := GetFaceOffset(face);
    var n := SafeVoxel(nb, x + o.x, y + o.y, z + o.z);
    n.IsAir() || n.IsTransparent()
  }

  // GenerateMesh visits x, then y, then z, and every face of a non-air cell
  // in face order. The functions below state that order for any grid and any
  // culling rule, so that the order can be reasoned about apart from what
  // the rule reads; GeneratedFaces instantiates them with the chunk's own.

  /** What the mesh loop sees at a local cell: the type of a cell to draw,
      None for air. */
  type CellKind = (int, int, int) -> Option<VoxelType>

  /** Whether the face of the cell at local (x, y, z) is drawn. */
  type FaceRule = (int, int, int, VoxelFace) -> bool

  /** The chunk's own cells: air is skipped, anything else is drawn. */
  function ChunkCells(nb: Neighborhood): CellKind {
    (x: int, y: int, z: int) =>
      if nb.Valid() && IsValidLocalCoord(x, y, z) && !VoxelAt(nb.own, x, y, z).IsAir()
      then Some(VoxelAt(nb.own, x, y, z).voxelType)
      else None
  }

  /** The chunk mesh's culling rule. */
  function ChunkRule(nb: Neighborhood): FaceRule {
    (x: int, y: int, z: int, face: VoxelFace) => nb.Valid() && IsFaceVisible(nb, x, y, z, face)
  }

  /** The faces among the first k faces of a cell of type t that the rule
      draws, in face order, each placed at the cell's world position. */
  function VisibleFaces(shown: FaceRule, t: VoxelType, origin: VoxelPosition, x: int, y: int, z: int, k: int): seq<FaceEmit>
    requires 0 <= k <= 6
  {
    if k == 0 then []
    else
      var face := (k - 1) as VoxelFace;
      VisibleFaces(shown, t, origin, x, y, z, k - 1)
      + (if shown(x, y, z, face) then [FaceEmit(origin.Add(VoxelPosition(x, y, z)), face, t)] else [])
  }

  /** What one cell contributes: nothing for air, else its drawn faces. */
  function CellFaces(cells: CellKind, shown: FaceRule, origin: VoxelPosition, x: int, y: int, z: int): seq<FaceEmit> {
    match cells(x, y, z)
    case None => []
    case Some(t) => VisibleFaces(shown, t, origin, x, y, z, 6)
  }

  /** A position of the three nested loops: (x, y, z) with z < 32 is a
      cell; (x, y, 0) also stands for the end of column (x, y - 1) and
      (x, 0, 0) for the end of slice x - 1; (32, 0, 0) is the end. */
  predicate IsCursor(x: int, y: int, z: int) {
    && 0 <= x <= ChunkSize && 0 <= y <= ChunkSize && 0 <= z <= ChunkSize
    && (x == ChunkSize ==> y == 0 && z == 0)
    && (y == ChunkSize ==> z == 0)
  }

  /** The local cell l comes before the cursor (x, y, z) in loop order. */
  predicate Before(l: VoxelPosition, x: int, y: int, z: int) {
    l.x < x || (l.x == x && (l.y < y || (l.y == y && l.z < z)))
  }

  /** The faces of every cell the loops visit before the cursor (x, y, z),
      in the order they visit them. */
  function FacesBefore(cells: CellKind, shown: FaceRule, origin: VoxelPosition, x: int, y: int, z: int): seq<FaceEmit>
    requires IsCursor(x, y, z)
    decreases x, y, z
  {
    if z > 0 then FacesBefore(cells, shown, origin, x, y, z - 1) + CellFaces(cells, shown, origin, x, y, z - 1)
    else if y > 0 then FacesBefore(cells, shown, origin, x, y - 1, ChunkSize)
    else if x > 0 then FacesBefore(cells, shown, origin, x - 1, ChunkSize, 0)
    else []
  }

  /** Every face a chunk's mesh holds, in the order the mesh holds them;
      origin is the chunk's world position. */
  function GeneratedFaces(nb: Neighborhood, origin: VoxelPosition): seq<FaceEmit> {
    FacesBefore(ChunkCells(nb), ChunkRule(nb), origin, ChunkSize, 0, 0)
  }

  /** e is a face the rule draws of a drawn cell, carrying the cell's type. */
  predicate IsShownEmit(cells: CellKind, shown: FaceRule, origin: VoxelPosition, e: FaceEmit) {
    var l := e.position.Sub(origin);
    && IsValidLocalCoord(l.x, l.y, l.z)
    && IsFace(e.face)
    && cells(l.x, l.y, l.z) == Some(e.voxelType)
    && shown(l.x, l.y, l.z, e.face)
  }

  lemma {:induction false} VisibleFacesMembers(shown: FaceRule, t: VoxelType, origin: VoxelPosition, x: int, y: int, z: int, k: int, e: FaceEmit)
    requires 0 <= k <= 6
    ensures e in VisibleFaces(shown, t, origin, x, y, z, k)
        <==> && e.position == origin.Add(VoxelPosition(x, y, z))
             && 0 <= e.face < k as VoxelFace
             && shown(x, y, z, e.face)
             && e.voxelType == t
  {
    if k > 0 {
      VisibleFacesMembers(shown, t, origin, x, y, z, k - 1, e);
    }
  }

  lemma {:induction false} CellFacesMembers(cells: CellKind, shown: FaceRule, origin: VoxelPosition, x: int, y: int, z: int, e: FaceEmit)
    requires IsValidLocalCoord(x, y, z)
    ensures e in CellFaces(cells, shown, origin, x, y, z)
        <==> e.position.Sub(origin) == VoxelPosition(x, y, z) && IsShownEmit(cells, shown, origin, e)
  {
    assert e.position == origin.Add(VoxelPosition(x, y, z)) <==> e.position.Sub(origin) == VoxelPosition(x, y, z);
    match cells(x, y, z)
    case None =>
    case Some(t) => VisibleFacesMembers(shown, t, origin, x, y, z, 6, e);
  }

  lemma {:induction false} FacesBeforeMembers(cells: CellKind, shown: FaceRule, origin: VoxelPosition, x: int, y: int, z: int, e: FaceEmit)
    requires IsCursor(x, y, z)
    ensures e in FacesBefore(cells, shown, origin, x, y, z)
        <==> Before(e.position.Sub(origin), x, y, z) && IsShownEmit(cells, shown, origin, e)
    decreases x, y, z
  {
    if z > 0 {
      FacesBeforeMembers(cells, shown, origin, x, y, z - 1, e);
      CellFacesMembers(cells, shown, origin, x, y, z - 1, e);
    } else if y > 0 {
      FacesBeforeMembers(cells, shown, origin, x, y - 1, ChunkSize, e);
    } else if x > 0 {
      FacesBeforeMembers(cells, shown, origin, x - 1, ChunkSize, 0, e);
    }
  }

  /** e is the face of a non-air voxel of the chunk whose neighbour through
      that face is air or transparent, carrying the voxel's type. */
  predicate IsVisibleEmit(nb: Neighborhood, origin: VoxelPosition, e: FaceEmit)
    requires nb.Valid()
  {
    var l := e.position.Sub(origin);
    && IsValidLocalCoord(l.x, l.y, l.z)
    && IsFace(e.face)
    && !VoxelAt(nb.own, l.x, l.y, l.z).IsAir()
    && IsFaceVisible(nb, l.x, l.y, l.z, e.face)
    && e.voxelType == VoxelAt(nb.own, l.x, l.y, l.z).voxelType
  }

  /** The mesh holds a face exactly when it is the face of a non-air voxel
      whose neighbour through that face is air or transparent. */
  lemma {:induction false} GeneratedFacesExact(nb: Neighborhood, origin: VoxelPosition, e: FaceEmit)
    requires nb.Valid()
    ensures e in GeneratedFaces(nb, origin) <==> IsVisibleEmit(nb, origin, e)
  {
    FacesBeforeMembers(ChunkCells(nb), ChunkRule(nb), origin, ChunkSize, 0, 0, e);
    var l := e.position.Sub(origin);
    assert ChunkRule(nb)(l.x, l.y, l.z, e.face) == IsFaceVisible(nb, l.x, l.y, l.z, e.face);
  }

  predicate NoDuplicates<T(==)>(s: seq<T>) {
    forall i, j :: 0 <= i < j < |s| ==> s[i] != s[j]
  }

  predicate Disjoint<T(==)>(a: seq<T>, b: seq<T>) {
    forall i, j :: 0 <= i < |a| && 0 <= j < |b| ==> a[i] != b[j]
  }

  lemma {:induction false} NoDuplicatesConcat<T>(a: seq<T>, b: seq<T>)
    requires NoDuplicates(a) && NoDuplicates(b) && Disjoint(a, b)
    ensures NoDuplicates(a + b)
  {
    forall i, j | 0 <= i < j < |a + b|
      ensures (a + b)[i] != (a + b)[j]
    {
      if j < |a| {
        assert (a + b)[i] == a[i] && (a + b)[j] == a[j];
      } else if i >= |a| {
        assert (a + b)[i] == b[i - |a|] && (a + b)[j] == b[j - |a|];
      } else {
        assert (a + b)[i] == a[i] && (a + b)[j] == b[j - |a|];
      }
    }
  }

  lemma {:induction false} VisibleFacesNoDuplicates(shown: FaceRule, t: VoxelType, origin: VoxelPosition, x: int, y: int, z: int, k: int)
    requires 0 <= k <= 6
    ensures NoDuplicates(VisibleFaces(shown, t, origin, x, y, z, k))
  {
    if k > 0 {
      var face := (k - 1) as VoxelFace;
      var a := VisibleFaces(shown, t, origin, x, y, z, k - 1);
      var b := if shown(x, y, z, face) then [FaceEmit(origin.Add(VoxelPosition(x, y, z)), face, t)] else [];
      VisibleFacesNoDuplicates(shown, t, origin, x, y, z, k - 1);
      forall i, j | 0 <= i < |a| && 0 <= j < |b|
        ensures a[i] != b[j]
      {
        VisibleFacesMembers(shown, t, origin, x, y, z, k - 1, a[i]);
      }
      NoDuplicatesConcat(a, b);
    }
  }

  lemma {:induction false} CellFacesNoDuplicates(cells: CellKind, shown: FaceRule, origin: VoxelPosition, x: int, y: int, z: int)
    ensures NoDuplicates(CellFaces(cells, shown, origin, x, y, z))
  {
    match cells(x, y, z)
    case None =>
    case Some(t) => VisibleFacesNoDuplicates(shown, t, origin, x, y, z, 6);
  }

  lemma {:induction false} FacesBeforeNoDuplicates(cells: CellKind, shown: FaceRule, origin: VoxelPosition, x: int, y: int, z: int)
    requires IsCursor(x, y, z)
    ensures NoDuplicates(FacesBefore(cells, shown, origin, x, y, z))
    decreases x, y, z
  {
    if z > 0 {
      var a := FacesBefore(cells, shown, origin, x, y, z - 1);
      var b := CellFaces(cells, shown, origin, x, y, z - 1);
      FacesBeforeNoDuplicates(cells, shown, origin, x, y, z - 1);
      CellFacesNoDuplicates(cells, shown, origin, x, y, z - 1);
      forall i, j | 0 <= i < |a| && 0 <= j < |b|
        ensures a[i] != b[j]
      {
        FacesBeforeMembers(cells, shown, origin, x, y, z - 1, a[i]);
        CellFacesMembers(cells, shown, origin, x, y, z - 1, b[j]);
      }
      NoDuplicatesConcat(a, b);
    } else if y > 0 {
      FacesBeforeNoDuplicates(cells, shown, origin, x, y - 1, ChunkSize);
    } else if x > 0 {
      FacesBeforeNoDuplicates(cells, shown, origin, x - 1, ChunkSize, 0);
    }
  }

  /** No face is emitted twice, so with GeneratedFacesExact the mesh holds one
      quad per visible (voxel, face) pair. */
  lemma {:induction false} GeneratedFacesOnce(nb: Neighborhood, origin: VoxelPosition)
    ensures NoDuplicates(GeneratedFaces(nb, origin))
  {
    FacesBeforeNoDuplicates(ChunkCells(nb), ChunkRule(nb), origin, ChunkSize, 0, 0);
  }

  /** Every local cell other than (cx, cy, cz) is skipped. */
  ghost predicate OnlyCell(cells: CellKind, cx: int, cy: int, cz: int) {
    forall x, y, z :: IsValidLocalCoord(x, y, z) && (x, y, z) != (cx, cy, cz) ==> cells(x, y, z).None?
  }

  lemma {:induction false} FacesBeforeOnlyCell(cells: CellKind, shown: FaceRule, origin: VoxelPosition, x: int, y: int, z: int, c: VoxelPosition)
    requires IsCursor(x, y, z) && IsValidLocalCoord(c.x, c.y, c.z) && OnlyCell(cells, c.x, c.y, c.z)
    ensures Before(c, x, y, z) ==> FacesBefore(cells, shown, origin, x, y, z) == CellFaces(cells, shown, origin, c.x, c.y, c.z)
    ensures !Before(c, x, y, z) ==> FacesBefore(cells, shown, origin, x, y, z) == []
    decreases x, y, z
  {
    if z > 0 {
      FacesBeforeOnlyCell(cells, shown, origin, x, y, z - 1, c);
      if VoxelPosition(x, y, z - 1) != c {
        assert cells(x, y, z - 1).None?;
      }
    } else if y > 0 {
      FacesBeforeOnlyCell(cells, shown, origin, x, y - 1, ChunkSize, c);
    } else if x > 0 {
      FacesBeforeOnlyCell(cells, shown, origin, x - 1, ChunkSize, 0, c);
    }
  }

  /** A chunk of nothing but air emits no face, which is why GenerateMesh may
      return an empty mesh for an empty chunk without looking at it. */
  lemma {:induction false} AllAirEmitsNothing(nb: Neighborhood, origin: VoxelPosition)
    requires nb.Valid() && AllAir(nb.own)
    ensures GeneratedFaces(nb, origin) == []
  {
    var cells := ChunkCells(nb);
    AllAirReadsAir(nb.own);
    forall x, y, z ensures cells(x, y, z).None? {
      assert VoxelAt(nb.own, x, y, z).IsAir();
    }
    FacesBeforeOnlyCell(cells, ChunkRule(nb), origin, ChunkSize, 0, 0, VoxelPosition(0, 0, 0));
  }

  /** A cell whose every face the rule draws shows all six. */
  lemma {:induction false} AllFacesShown(shown: FaceRule, t: VoxelType, origin: VoxelPosition, x: int, y: int, z: int, k: int)
    requires 0 <= k <= 6
    requires forall face: VoxelFace :: IsFace(face) ==> shown(x, y, z, face)
    ensures |VisibleFaces(shown, t, origin, x, y, z, k)| == k
  {
    if k > 0 {
      AllFacesShown(shown, t, origin, x, y, z, k - 1);
      assert shown(x, y, z, (k - 1) as VoxelFace);
    }
  }

  /** With no neighbours and nothing else in the chunk, every face of a
      voxel looks onto air. */
  lemma {:induction false} LoneVoxelSeesAir(nb: Neighborhood, cx: int, cy: int, cz: int, face: VoxelFace)
    requires nb.Valid() && forall f :: 0 <= f < 6 ==> nb.sides[f].None?
    requires IsValidLocalCoord(cx, cy, cz) && IsFace(face)
    requires forall x, y, z :: IsValidLocalCoord(x, y, z) && (x, y, z) != (cx, cy, cz) ==> VoxelAt(nb.own, x, y, z).IsAir()
    ensures IsFaceVisible(nb, cx, cy, cz, face)
  {
    var o := GetFaceOffset(face);
    SafeVoxelAcrossFace(nb, cx, cy, cz, face);
    if IsValidLocalCoord(cx + o.x, cy + o.y, cz + o.z) {
      assert VoxelAt(nb.own, cx + o.x, cy + o.y, cz + o.z).IsAir();
    } else {
      assert nb.sides[face as int].None?;
    }
  }

  /** A lone non-air voxel in a chunk with no neighbours shows all six faces:
      6 quads, 24 vertices of 11 floats and 36 indices. */
  lemma {:induction false} LoneVoxelMesh(nb: Neighborhood, origin: VoxelPosition, cx: int, cy: int, cz: int)
    requires nb.Valid() && forall f :: 0 <= f < 6 ==> nb.sides[f].None?
    requires IsValidLocalCoord(cx, cy, cz) && !VoxelAt(nb.own, cx, cy, cz).IsAir()
    requires forall x, y, z :: IsValidLocalCoord(x, y, z) && (x, y, z) != (cx, cy, cz) ==> VoxelAt(nb.own, x, y, z).IsAir()
    ensures |GeneratedFaces(nb, origin)| == 6
    ensures |EmitVertices(GeneratedFaces(nb, origin))| == VertexStride * 24
    ensures |EmitIndices(GeneratedFaces(nb, origin))| == 36
  {
    var cells, rule := ChunkCells(nb), ChunkRule(nb);
    forall x, y, z | IsValidLocalCoord(x, y, z) && (x, y, z) != (cx, cy, cz)
      ensures cells(x, y, z).None?
    {
      assert VoxelAt(nb.own, x, y, z).IsAir();
    }
    FacesBeforeOnlyCell(cells, rule, origin, ChunkSize, 0, 0, VoxelPosition(cx, cy, cz));
    forall face: VoxelFace | IsFace(face)
      ensures rule(cx, cy, cz, face)
    {
      LoneVoxelSeesAir(nb, cx, cy, cz, face);
    }
    AllFacesShown(rule, VoxelAt(nb.own, cx, cy, cz).voxelType, origin, cx, cy, cz, 6);
  }
}
