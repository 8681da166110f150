/**
 * The voxel mesh builder (pkg/mesh/voxel_mesh_builder.go): face culling
 * between a voxel and its neighbour, and a builder that appends, per drawn
 * face, four vertices of 9 floats (position, normal, colour) and the six
 * indices of the quad's two triangles.
 *
 * The builder's buffers are sequences the methods reassign; the ghost field
 * `faces` lists the faces appended so far, and the class invariant says the
 * buffers are exactly what those faces produce.
 */
module VoxelMeshBuilders {
  import opened Voxels
  import ChunkMeshes

  /** Floats per vertex: position 3, normal 3, colour 3. */
  const BuilderStride: int := 9

  /** The six voxels around the one being meshed, one per face. */
  datatype VoxelNeighbors = VoxelNeighbors(top: Voxel, bottom: Voxel, left: Voxel, right: Voxel, front: Voxel, back: Voxel) {

    /** The neighbour across a face. */
    function Across(face: VoxelFace): Voxel {
      if face == Top then top
      else if face == Bottom then bottom
      else if face == Left then left
      else if face == Right then right
      else if face == Front then front
      else back
    }
  }

  /** Whether the face between `current` and `neighbor` is drawn: never for
      an air voxel, always against air, and between two solid voxels exactly
      when an opaque voxel faces a transparent one. */
  function ShouldRenderFace(current: Voxel, neighbor: Voxel): (render: bool)
    ensures current.IsAir() ==> !render
    ensures !current.IsAir() && neighbor.IsAir() ==> render
    ensures !current.IsAir() && !neighbor.IsAir() ==> (render <==> neighbor.IsTransparent() && current.IsOpaque())
  {
    if current.IsAir() then false
    else if neighbor.IsAir() then true
    else if neighbor.IsTransparent() && current.IsOpaque() then true
    else false
  }

  /** The cases the source's culling is meant for: stone beside glass is
      drawn, glass beside water and stone beside stone are not. */
  lemma ShouldRenderFaceExamples()
    ensures ShouldRenderFace(Voxel(Stone), Voxel(Glass))
    ensures !ShouldRenderFace(Voxel(Glass), Voxel(Water))
    ensures !ShouldRenderFace(Voxel(Stone), Voxel(Stone))
    ensures ShouldRenderFace(Voxel(Water), Voxel(Air))
  {
  }

  /** Against the chunk mesh's rule (draw a solid voxel's face exactly when
      the voxel beyond it is transparent), the builder draws no face the
      chunk mesh would not, draws the same faces for an opaque voxel, and for
      a transparent voxel draws a face only against air. So glass beside
      water is drawn by the chunk mesh and not by the builder. */
  lemma {:induction false} CullingAgainstChunkMesh(current: Voxel, neighbor: Voxel)
    requires !current.IsAir()
    ensures ShouldRenderFace(current, neighbor) ==> neighbor.IsTransparent()
    ensures current.IsOpaque() ==> (ShouldRenderFace(current, neighbor) <==> neighbor.IsTransparent())
    ensures current.IsTransparent() ==> (ShouldRenderFace(current, neighbor) <==> neighbor.IsAir())
  {
    ClassificationTable(current);
    ClassificationTable(neighbor);
  }

  /** The four corner offsets from the cell's lower corner each add*Face
      method writes, in the order it writes them. */
  function BuilderCorners(face: VoxelFace): (cs: seq<VoxelPosition>)
    ensures |cs| == 4
  {
    if face == Top then [VoxelPosition(0, 1, 0), VoxelPosition(1, 1, 0), VoxelPosition(1, 1, 1), VoxelPosition(0, 1, 1)]
    else if face == Bottom then [VoxelPosition(0, 0, 1), VoxelPosition(1, 0, 1), VoxelPosition(1, 0, 0), VoxelPosition(0, 0, 0)]
    else if face == Left then [VoxelPosition(0, 0, 0), VoxelPosition(0, 1, 0), VoxelPosition(0, 1, 1), VoxelPosition(0, 0, 1)]
    else if face == Right then [VoxelPosition(1, 0, 1), VoxelPosition(1, 1, 1), VoxelPosition(1, 1, 0), VoxelPosition(1, 0, 0)]
    else if face == Front then [VoxelPosition(0, 0, 1), VoxelPosition(0, 1, 1), VoxelPosition(1, 1, 1), VoxelPosition(1, 0, 1)]
    else [VoxelPosition(1, 0, 0), VoxelPosition(1, 1, 0), VoxelPosition(0, 1, 0), VoxelPosition(0, 0, 0)]
  }

  /** Every corner the builder writes lies on its face's side of the unit
      cell with 0/1 coordinates, the four are distinct, and they are the
      same four points the chunk mesh uses for that face. */
  lemma BuilderCornersShape(face: VoxelFace, i: int, j: int)
    requires IsFace(face) && 0 <= i < 4 && 0 <= j < 4
    ensures var c := BuilderCorners(face)[i];
            && ChunkMeshes.OnFacePlane(face, c)
            && ChunkMeshes.IsBit(c.x) && ChunkMeshes.IsBit(c.y) && ChunkMeshes.IsBit(c.z)
    ensures i != j ==> BuilderCorners(face)[i] != BuilderCorners(face)[j]
    ensures exists k :: 0 <= k < 4 && ChunkMeshes.FaceVerticesAsWritten(face)[k].Offset() == BuilderCorners(face)[i]
  {
    var cs := ChunkMeshes.FaceVerticesAsWritten(face);
    assert cs[0].Offset() == BuilderCorners(face)[i] || cs[1].Offset() == BuilderCorners(face)[i]
        || cs[2].Offset() == BuilderCorners(face)[i] || cs[3].Offset() == BuilderCorners(face)[i];
  }

  /** Every face is wound the same way: both triangles of each quad, by
      indices 0,1,2 and 0,2,3, turn clockwise seen from outside the cell,
      their right-hand normal pointing into it. */
  lemma {:induction false} BuilderWindingIsUniform(face: VoxelFace)
    requires IsFace(face)
    ensures WoundInward(BuilderCorners(face), GetFaceOffset(face))
  {
    if face == Top { TopBuilderWinding(); }
    else if face == Bottom { BottomBuilderWinding(); }
    else if face == Left { LeftBuilderWinding(); }
    else if face == Right { RightBuilderWinding(); }
    else if face == Front { FrontBuilderWinding(); }
    else { BackBuilderWinding(); }
  }

  /** Both triangles 0,1,2 and 0,2,3 of the quad cs have the right-hand
      normal -o. */
  predicate WoundInward(cs: seq<VoxelPosition>, o: VoxelPosition)
    requires |cs| == 4
  {
    && ChunkMeshes.TriangleNormal(cs[0], cs[1], cs[2]) == VoxelPosition(-o.x, -o.y, -o.z)
    && ChunkMeshes.TriangleNormal(cs[0], cs[2], cs[3]) == VoxelPosition(-o.x, -o.y, -o.z)
  }

  lemma TopBuilderWinding()
    ensures WoundInward(BuilderCorners(Top), GetFaceOffset(Top))
  {
  }

  lemma BottomBuilderWinding()
    ensures WoundInward(BuilderCorners(Bottom), GetFaceOffset(Bottom))
  {
  }

  lemma LeftBuilderWinding()
    ensures WoundInward(BuilderCorners(Left), GetFaceOffset(Left))
  {
  }

  lemma RightBuilderWinding()
    ensures WoundInward(BuilderCorners(Right), GetFaceOffset(Right))
  {
  }

  lemma FrontBuilderWinding()
    ensures WoundInward(BuilderCorners(Front), GetFaceOffset(Front))
  {
  }

  lemma BackBuilderWinding()
    ensures WoundInward(BuilderCorners(Back), GetFaceOffset(Back))
  {
  }

  /** One face the builder has appended: which face, the cell's lower corner
      in world space, and the colour it was drawn with. */
  datatype BuiltFace = BuiltFace(face: VoxelFace, origin: Vec3, color: Vec3)

  /** The 9 floats of one vertex, in buffer order. */
  function VertexRecord(x: real, y: real, z: real, nx: real, ny: real, nz: real, r: real, g: real, b: real): (rec: seq<real>)
    ensures |rec| == BuilderStride
  {
    [x, y, z, nx, ny, nz, r, g, b]
  }

  /** The vertex of a built face at corner offset c: the corner's world
      position, the face normal and the face's colour. */
  function CornerRecord(f: BuiltFace, c: VoxelPosition): (r: seq<real>)
    ensures |r| == BuilderStride
  {
    var n := GetFaceNormal(f.face);
    VertexRecord(f.origin.x + c.x as real, f.origin.y + c.y as real, f.origin.z + c.z as real,
                 n.x, n.y, n.z, f.color.x, f.color.y, f.color.z)
  }

  /** A vertex buffer v followed by the four vertex records of a built
      face, one per corner in table order. */
  function WithQuad(v: seq<real>, f: BuiltFace): (r: seq<real>)
    ensures |r| == |v| + 4 * BuilderStride
  {
    var cs := BuilderCorners(f.face);
    v + CornerRecord(f, cs[0]) + CornerRecord(f, cs[1]) + CornerRecord(f, cs[2]) + CornerRecord(f, cs[3])
  }

  /** Four vertices appended one by one, corner after corner with the
      face's normal and colour, are the built face's records. */
  lemma {:induction false} QuadAppended(v0: seq<real>, v4: seq<real>, face: VoxelFace, pos: Vec3, color: Vec3,
                                        c0: VoxelPosition, c1: VoxelPosition, c2: VoxelPosition, c3: VoxelPosition, n: Vec3)
    requires (c0, c1, c2, c3, n) == (BuilderCorners(face)[0], BuilderCorners(face)[1], BuilderCorners(face)[2], BuilderCorners(face)[3], GetFaceNormal(face))
    requires v4 == v0
                   + VertexRecord(pos.x + c0.x as real, pos.y + c0.y as real, pos.z + c0.z as real, n.x, n.y, n.z, color.x, color.y, color.z)
                   + VertexRecord(pos.x + c1.x as real, pos.y + c1.y as real, pos.z + c1.z as real, n.x, n.y, n.z, color.x, color.y, color.z)
                   + VertexRecord(pos.x + c2.x as real, pos.y + c2.y as real, pos.z + c2.z as real, n.x, n.y, n.z, color.x, color.y, color.z)
                   + VertexRecord(pos.x + c3.x as real, pos.y + c3.y as real, pos.z + c3.z as real, n.x, n.y, n.z, color.x, color.y, color.z)
    ensures v4 == WithQuad(v0, BuiltFace(face, pos, color))
  {
  }

  /** The quad's two triangles over vertices base .. base + 3. */
  function QuadIndices(base: int): (r: seq<int>)
    ensures |r| == 6
    ensures forall i :: 0 <= i < 6 ==> base <= r[i] < base + 4
  {
    [base, base + 1, base + 2, base, base + 2, base + 3]
  }

  /** The vertex buffer of a builder holding the faces fs, in order. */
  function BuiltVertices(fs: seq<BuiltFace>): (r: seq<real>)
    ensures |r| == 4 * BuilderStride * |fs|
  {
    if fs == [] then [] else WithQuad(BuiltVertices(fs[..|fs| - 1]), fs[|fs| - 1])
  }

  /** The index buffer of a builder holding the faces fs: face k's quad
      over vertices 4k .. 4k + 3, so every index names one of the 4 * |fs|
      vertices. */
  function BuiltIndices(fs: seq<BuiltFace>): (r: seq<int>)
    ensures |r| == 6 * |fs|
    ensures forall i :: 0 <= i < |r| ==> 0 <= r[i] < 4 * |fs|
  {
    if fs == [] then [] else BuiltIndices(fs[..|fs| - 1]) + QuadIndices(4 * (|fs| - 1))
  }

  /** The faces AddVoxelWithCulling appends for a voxel of type t at pos,
      from face `from` on, in the order Top, Bottom, Left, Right, Front,
      Back. */
  function CulledFaces(pos: VoxelPosition, t: VoxelType, neighbors: VoxelNeighbors, color: Vec3, from: VoxelFace): (fs: seq<BuiltFace>)
    ensures |fs| <= 6
    decreases Back + 1 - from
  {
    if !(Top <= from <= Back) then []
    else Shown(Voxel(t), neighbors.Across(from), from, ToWorldSpace(pos), color) + CulledFaces(pos, t, neighbors, color, from + 1)
  }

  /** What one culling test appends: the face, when it is drawn. */
  function Shown(current: Voxel, neighbor: Voxel, face: VoxelFace, origin: Vec3, color: Vec3): (fs: seq<BuiltFace>)
    ensures fs != [] <==> ShouldRenderFace(current, neighbor)
  {
    if ShouldRenderFace(current, neighbor) then [BuiltFace(face, origin, color)] else []
  }

  /** The faces from `from` on that pass the culling test. */
  function Drawn(t: VoxelType, neighbors: VoxelNeighbors, from: VoxelFace): set<VoxelFace> {
    set f: VoxelFace | from <= f <= Back && ShouldRenderFace(Voxel(t), neighbors.Across(f))
  }

  /** A voxel's faces are appended exactly for the faces that pass the
      culling test, each once, so as many as there are such faces. */
  lemma {:induction false} CulledFacesExact(pos: VoxelPosition, t: VoxelType, neighbors: VoxelNeighbors, color: Vec3, from: VoxelFace)
    requires Top <= from <= Back + 1
    ensures forall f :: f in CulledFaces(pos, t, neighbors, color, from) <==>
              f.face in Drawn(t, neighbors, from) && f.origin == ToWorldSpace(pos) && f.color == color
    ensures |CulledFaces(pos, t, neighbors, color, from)| == |Drawn(t, neighbors, from)|
    decreases Back + 1 - from
  {
    if from == Back + 1 {
      assert Drawn(t, neighbors, from) == {};
    } else {
      CulledFacesExact(pos, t, neighbors, color, from + 1);
      DrawnStep(t, neighbors, from);
      var here := Shown(Voxel(t), neighbors.Across(from), from, ToWorldSpace(pos), color);
      var rest := CulledFaces(pos, t, neighbors, color, from + 1);
      assert CulledFaces(pos, t, neighbors, color, from) == here + rest;
      assert |here| == if ShouldRenderFace(Voxel(t), neighbors.Across(from)) then 1 else 0;
    }
  }

  /** Drawn from `from` on is face `from`, when it passes the test, next to
      the faces drawn after it. */
  lemma DrawnStep(t: VoxelType, neighbors: VoxelNeighbors, from: VoxelFace)
    requires Top <= from <= Back
    ensures from !in Drawn(t, neighbors, from + 1)
    ensures Drawn(t, neighbors, from)
         == (if ShouldRenderFace(Voxel(t), neighbors.Across(from)) then {from} else {}) + Drawn(t, neighbors, from + 1)
  {
  }

  /** An air voxel adds nothing; a solid voxel with air all round adds all
      its faces. */
  lemma {:induction false} CulledFacesExtremes(pos: VoxelPosition, t: VoxelType, neighbors: VoxelNeighbors, color: Vec3, from: VoxelFace)
    requires Top <= from <= Back + 1
    ensures t == Air ==> CulledFaces(pos, t, neighbors, color, from) == []
    ensures t != Air && neighbors == VoxelNeighbors(Voxel(Air), Voxel(Air), Voxel(Air), Voxel(Air), Voxel(Air), Voxel(Air))
            ==> |CulledFaces(pos, t, neighbors, color, from)| == (Back + 1 - from) as int
    decreases Back + 1 - from
  {
    if from <= Back {
      CulledFacesExtremes(pos, t, neighbors, color, from + 1);
    }
  }

  /** The six culling tests in a row append what CulledFaces lists. */
  lemma {:induction false} CulledFacesUnrolled(prefix: seq<BuiltFace>, pos: VoxelPosition, t: VoxelType, neighbors: VoxelNeighbors, color: Vec3)
    ensures var (v, w) := (Voxel(t), ToWorldSpace(pos));
            prefix + CulledFaces(pos, t, neighbors, color, Top)
            == prefix + Shown(v, neighbors.Across(Top), Top, w, color) + Shown(v, neighbors.Across(Bottom), Bottom, w, color)
               + Shown(v, neighbors.Across(Left), Left, w, color) + Shown(v, neighbors.Across(Right), Right, w, color)
               + Shown(v, neighbors.Across(Front), Front, w, color) + Shown(v, neighbors.Across(Back), Back, w, color)
  {
    var (v, w) := (Voxel(t), ToWorldSpace(pos));
    var s := prefix;
    assert s + CulledFaces(pos, t, neighbors, color, Top)
        == (s + Shown(v, neighbors.Across(Top), Top, w, color)) + CulledFaces(pos, t, neighbors, color, Bottom);
    s := s + Shown(v, neighbors.Across(Top), Top, w, color);
    assert s + CulledFaces(pos, t, neighbors, color, Bottom)
        == (s + Shown(v, neighbors.Across(Bottom), Bottom, w, color)) + CulledFaces(pos, t, neighbors, color, Left);
    s := s + Shown(v, neighbors.Across(Bottom), Bottom, w, color);
    assert s + CulledFaces(pos, t, neighbors, color, Left)
        == (s + Shown(v, neighbors.Across(Left), Left, w, color)) + CulledFaces(pos, t, neighbors, color, Right);
    s := s + Shown(v, neighbors.Across(Left), Left, w, color);
    assert s + CulledFaces(pos, t, neighbors, color, Right)
        == (s + Shown(v, neighbors.Across(Right), Right, w, color)) + CulledFaces(pos, t, neighbors, color, Front);
    s := s + Shown(v, neighbors.Across(Right), Right, w, color);
    assert s + CulledFaces(pos, t, neighbors, color, Front)
        == (s + Shown(v, neighbors.Across(Front), Front, w, color)) + CulledFaces(pos, t, neighbors, color, Back);
    s := s + Shown(v, neighbors.Across(Front), Front, w, color);
    assert s + CulledFaces(pos, t, neighbors, color, Back)
        == (s + Shown(v, neighbors.Across(Back), Back, w, color)) + CulledFaces(pos, t, neighbors, color, Back + 1);
    s := s + Shown(v, neighbors.Across(Back), Back, w, color);
    assert s + CulledFaces(pos, t, neighbors, color, Back + 1) == s;
  }

  /** Vertex and index buffers hold exactly what the faces fs produce. */
  ghost predicate Produced(vertices: seq<real>, indices: seq<int>, fs: seq<BuiltFace>) {
    vertices == BuiltVertices(fs) && indices == BuiltIndices(fs)
  }

  class VoxelMeshBuilder {
    var vertices: seq<real>
    var indices: seq<int>
    /** The faces appended since creation or the last Reset. */
    ghost var faces: seq<BuiltFace>

    /** The buffers hold exactly the faces appended, in order. */
    ghost predicate Valid()
      reads this
    {
      Produced(vertices, indices, faces)
    }

    constructor ()
      ensures Valid() && faces == []
    {
      vertices, indices := [], [];
      faces := [];
    }

    /** Vertices in the buffer: four per face appended. */
    function GetVertexCount(): (n: int)
      reads this
      ensures Valid() ==> n == 4 * |faces|
    {
      |vertices| / BuilderStride
    }

    /** Triangles in the buffer: two per face appended. */
    function GetTriangleCount(): (n: int)
      reads this
      ensures Valid() ==> n == 2 * |faces|
    {
      |indices| / 3
    }

    /** Appends the 9 floats of one vertex. */
    method AddVertex(x: real, y: real, z: real, nx: real, ny: real, nz: real, r: real, g: real, b: real)
      modifies this
      ensures vertices == old(vertices) + VertexRecord(x, y, z, nx, ny, nz, r, g, b)
      ensures indices == old(indices) && faces == old(faces)
    {
      vertices := vertices + [x, y, z, nx, ny, nz, r, g, b];
    }

    /** Appends the two triangles of the quad whose first vertex is baseIdx. */
    method AddQuadIndices(baseIdx: int)
      modifies this
      ensures indices == old(indices) + QuadIndices(baseIdx)
      ensures vertices == old(vertices) && faces == old(faces)
    {
      indices := indices + [baseIdx, baseIdx + 1, baseIdx + 2, baseIdx, baseIdx + 2, baseIdx + 3];
    }

    /** The add*Face methods: the four corners of one face of the cell at
        pos, each with the face's normal and the colour, and the quad over
        them, numbered from the vertex count before the call. */
    method AddFace(face: VoxelFace, pos: Vec3, color: Vec3)
      requires Valid()
      modifies this
      ensures Valid() && faces == old(faces) + [BuiltFace(face, pos, color)]
    {
      var baseIdx := |vertices| / BuilderStride;
      AddCorners(face, pos, color);
      AddQuadIndices(baseIdx);
      ghost var f := BuiltFace(face, pos, color);
      faces := faces + [f];
      assert faces[..|faces| - 1] == old(faces);
    }

    /** The four addVertex calls of an add*Face method, corner after corner
        in table order. */
    method AddCorners(face: VoxelFace, pos: Vec3, color: Vec3)
      modifies this
      ensures vertices == WithQuad(old(vertices), BuiltFace(face, pos, color))
      ensures indices == old(indices) && faces == old(faces)
    {
      var n := GetFaceNormal(face);
      var cs := BuilderCorners(face);
      var (c0, c1, c2, c3) := (cs[0], cs[1], cs[2], cs[3]);
      AddVertex(pos.x + c0.x as real, pos.y + c0.y as real, pos.z + c0.z as real, n.x, n.y, n.z, color.x, color.y, color.z);
      AddVertex(pos.x + c1.x as real, pos.y + c1.y as real, pos.z + c1.z as real, n.x, n.y, n.z, color.x, color.y, color.z);
      AddVertex(pos.x + c2.x as real, pos.y + c2.y as real, pos.z + c2.z as real, n.x, n.y, n.z, color.x, color.y, color.z);
      AddVertex(pos.x + c3.x as real, pos.y + c3.y as real, pos.z + c3.z as real, n.x, n.y, n.z, color.x, color.y, color.z);
      QuadAppended(old(vertices), vertices, face, pos, color, c0, c1, c2, c3, n);
    }

    /** Appends the faces of a voxel that pass the culling test against
        their neighbours, in the order Top, Bottom, Left, Right, Front,
        Back. */
    method AddVoxelWithCulling(pos: VoxelPosition, voxelType: VoxelType, neighbors: VoxelNeighbors, color: Vec3)
      requires Valid()
      modifies this
      ensures Valid() && faces == old(faces) + CulledFaces(pos, voxelType, neighbors, color, Top)
    {
      var current := Voxel(voxelType);
      var worldPos := ToWorldSpace(pos);
      CulledFacesUnrolled(faces, pos, voxelType, neighbors, color);
      AddFaceIfShown(current, neighbors.Across(Top), Top, worldPos, color);
      AddFaceIfShown(current, neighbors.Across(Bottom), Bottom, worldPos, color);
      AddFaceIfShown(current, neighbors.Across(Left), Left, worldPos, color);
      AddFaceIfShown(current, neighbors.Across(Right), Right, worldPos, color);
      AddFaceIfShown(current, neighbors.Across(Front), Front, worldPos, color);
      AddFaceIfShown(current, neighbors.Across(Back), Back, worldPos, color);
    }

    /** One of AddVoxelWithCulling's six tests: the face is appended exactly
        when it passes the culling test against the neighbour across it. */
    method AddFaceIfShown(current: Voxel, neighbor: Voxel, face: VoxelFace, worldPos: Vec3, color: Vec3)
      requires Valid()
      modifies this
      ensures Valid()
      ensures faces == old(faces) + Shown(current, neighbor, face, worldPos, color)
    {
      if ShouldRenderFace(current, neighbor) {
        AddFace(face, worldPos, color);
      }
    }

    /** Empties both buffers. */
    method Reset()
      modifies this
      ensures Valid() && faces == []
    {
      vertices := [];
      indices := [];
      faces := [];
    }
  }

  /** The buffer shape the builder keeps: 36 floats and 6 indices per quad,
      and every index below the vertex count. */
  lemma {:induction false} BuilderShape(b: VoxelMeshBuilder)
    requires b.Valid()
    ensures |b.vertices| % (4 * BuilderStride) == 0
    ensures |b.indices| == 6 * (|b.vertices| / (4 * BuilderStride))
    ensures forall i :: 0 <= i < |b.indices| ==> 0 <= b.indices[i] < b.GetVertexCount()
  {
    assert |b.vertices| == 4 * BuilderStride * |b.faces|;
  }
}
