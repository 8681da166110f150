/**
 * The cube mesh (pkg/mesh/cube_mesh.go): a fixed table of 24 vertices, four
 * per face, each with a position, a normal and a texture coordinate, and 36
 * indices, two triangles per face; and its flattening into 8 floats per
 * vertex for the vertex buffer.
 *
 * Floats are `real`: the only arithmetic is halving the size, which float32
 * does exactly for every size that neither underflows nor overflows.
 */
module CubeMeshes {
  import opened Voxels

  datatype Vertex = Vertex(position: Vec3, normal: Vec3, u: real, v: real)

  /** Floats per vertex in the flattened layout: position, normal, texcoord. */
  const FloatsPerVertex: int := 8

  /** Bytes in one float32. */
  const BytesPerFloat: int := 4

  /** The faces of the cube, in the order their vertices appear in the table. */
  const CubeFaces: seq<VoxelFace> := [Front, Back, Top, Bottom, Right, Left]

  datatype CubeMesh = CubeMesh(vertices: seq<Vertex>, indices: seq<int>) {

    /** The vertices flattened, 8 floats each, in table order. */
    method ToFloatArray() returns (data: seq<real>)
      ensures data == Flatten(vertices)
      ensures |data| == FloatsPerVertex * |vertices|
    {
      data := [];
      var i := 0;
      while i < |vertices|
        invariant 0 <= i <= |vertices|
        invariant data == Flatten(vertices[..i])
      {
        var v := vertices[i];
        FlattenAppend(vertices[..i], v);
        assert vertices[..i + 1] == vertices[..i] + [v];
        data := data + [v.position.x, v.position.y, v.position.z];
        data := data + [v.normal.x, v.normal.y, v.normal.z];
        data := data + [v.u, v.v];
        i := i + 1;
      }
      assert vertices[..i] == vertices;
      FlattenLength(vertices);
    }

    /** The distance in bytes from one vertex to the next in ToFloatArray's
        output. */
    function GetVertexStride(): (stride: int)
      ensures stride == FloatsPerVertex * BytesPerFloat
      ensures |Flatten(vertices)| == (stride / BytesPerFloat) * |vertices|
      ensures forall i :: 0 <= i < |vertices| ==>
                VertexFloatsAt(Flatten(vertices), i * (stride / BytesPerFloat)) == vertices[i]
    {
      FlattenLayout(vertices);
      8 * 4
    }
  }

  /** The 8 floats of one vertex. */
  function VertexFloats(v: Vertex): (r: seq<real>)
    ensures |r| == FloatsPerVertex
  {
    [v.position.x, v.position.y, v.position.z, v.normal.x, v.normal.y, v.normal.z, v.u, v.v]
  }

  /** The vertex whose 8 floats start at offset k of a flat buffer. */
  function VertexFloatsAt(data: seq<real>, k: int): Vertex
    requires 0 <= k && k + FloatsPerVertex <= |data|
  {
    Vertex(Vec3(data[k], data[k + 1], data[k + 2]), Vec3(data[k + 3], data[k + 4], data[k + 5]),
           data[k + 6], data[k + 7])
  }

  /** The flattened layout of a list of vertices. */
  function Flatten(vs: seq<Vertex>): seq<real> {
    if vs == [] then [] else VertexFloats(vs[0]) + Flatten(vs[1..])
  }

  /** Reads a flat buffer back as vertices, 8 floats at a time. */
  function Unflatten(data: seq<real>): seq<Vertex>
    requires |data| % FloatsPerVertex == 0
  {
    if |data| == 0 then [] else [VertexFloatsAt(data, 0)] + Unflatten(data[FloatsPerVertex..])
  }

  lemma {:induction false} FlattenLength(vs: seq<Vertex>)
    ensures |Flatten(vs)| == FloatsPerVertex * |vs|
  {
    if vs != [] {
      FlattenLength(vs[1..]);
    }
  }

  /** Flattening one more vertex appends its 8 floats. */
  lemma {:induction false} FlattenAppend(vs: seq<Vertex>, v: Vertex)
    ensures Flatten(vs + [v]) == Flatten(vs) + VertexFloats(v)
  {
    if vs != [] {
      assert (vs + [v])[1..] == vs[1..] + [v];
      FlattenAppend(vs[1..], v);
    }
  }

  /** Vertex i occupies floats 8i to 8i + 7 of the flat buffer. */
  lemma {:induction false} FlattenLayout(vs: seq<Vertex>)
    ensures |Flatten(vs)| == FloatsPerVertex * |vs|
    ensures forall i :: 0 <= i < |vs| ==> VertexFloatsAt(Flatten(vs), FloatsPerVertex * i) == vs[i]
  {
    FlattenLength(vs);
    if vs != [] {
      FlattenLayout(vs[1..]);
      forall i | 0 <= i < |vs|
        ensures VertexFloatsAt(Flatten(vs), FloatsPerVertex * i) == vs[i]
      {
        if i > 0 {
          assert vs[1..][i - 1] == vs[i];
          assert VertexFloatsAt(Flatten(vs[1..]), FloatsPerVertex * (i - 1)) == vs[i];
        }
      }
    }
  }

  /** Reading a flattened buffer back gives the vertices it was made from. */
  lemma {:induction false} UnflattenFlatten(vs: seq<Vertex>)
    ensures |Flatten(vs)| % FloatsPerVertex == 0
    ensures Unflatten(Flatten(vs)) == vs
  {
    FlattenLength(vs);
    if vs != [] {
      var d := Flatten(vs);
      assert d[FloatsPerVertex..] == Flatten(vs[1..]);
      UnflattenFlatten(vs[1..]);
    }
  }

  /** Every buffer of whole vertices is the flattening of what it reads as. */
  lemma {:induction false} FlattenUnflatten(data: seq<real>)
    requires |data| % FloatsPerVertex == 0
    ensures Flatten(Unflatten(data)) == data
  {
    if |data| != 0 {
      FlattenUnflatten(data[FloatsPerVertex..]);
      assert data == data[..FloatsPerVertex] + data[FloatsPerVertex..];
    }
  }

  /** The four vertices the table lists for face f of the cube with half
      edge h, in table order. */
  function FaceQuad(f: VoxelFace, h: real): (q: seq<Vertex>)
    requires f in CubeFaces
    ensures |q| == 4
  {
    if f == Front then
      [ Vertex(Vec3(-h, -h, h), Vec3(0.0, 0.0, 1.0), 0.0, 0.0),
        Vertex(Vec3(h, -h, h), Vec3(0.0, 0.0, 1.0), 1.0, 0.0),
        Vertex(Vec3(h, h, h), Vec3(0.0, 0.0, 1.0), 1.0, 1.0),
        Vertex(Vec3(-h, h, h), Vec3(0.0, 0.0, 1.0), 0.0, 1.0) ]
    else if f == Back then
      [ Vertex(Vec3(h, -h, -h), Vec3(0.0, 0.0, -1.0), 0.0, 0.0),
        Vertex(Vec3(-h, -h, -h), Vec3(0.0, 0.0, -1.0), 1.0, 0.0),
        Vertex(Vec3(-h, h, -h), Vec3(0.0, 0.0, -1.0), 1.0, 1.0),
        Vertex(Vec3(h, h, -h), Vec3(0.0, 0.0, -1.0), 0.0, 1.0) ]
    else if f == Top then
      [ Vertex(Vec3(-h, h, h), Vec3(0.0, 1.0, 0.0), 0.0, 0.0),
        Vertex(Vec3(h, h, h), Vec3(0.0, 1.0, 0.0), 1.0, 0.0),
        Vertex(Vec3(h, h, -h), Vec3(0.0, 1.0, 0.0), 1.0, 1.0),
        Vertex(Vec3(-h, h, -h), Vec3(0.0, 1.0, 0.0), 0.0, 1.0) ]
    else if f == Bottom then
      [ Vertex(Vec3(-h, -h, -h), Vec3(0.0, -1.0, 0.0), 0.0, 0.0),
        Vertex(Vec3(h, -h, -h), Vec3(0.0, -1.0, 0.0), 1.0, 0.0),
        Vertex(Vec3(h, -h, h), Vec3(0.0, -1.0, 0.0), 1.0, 1.0),
        Vertex(Vec3(-h, -h, h), Vec3(0.0, -1.0, 0.0), 0.0, 1.0) ]
    else if f == Right then
      [ Vertex(Vec3(h, -h, h), Vec3(1.0, 0.0, 0.0), 0.0, 0.0),
        Vertex(Vec3(h, -h, -h), Vec3(1.0, 0.0, 0.0), 1.0, 0.0),
        Vertex(Vec3(h, h, -h), Vec3(1.0, 0.0, 0.0), 1.0, 1.0),
        Vertex(Vec3(h, h, h), Vec3(1.0, 0.0, 0.0), 0.0, 1.0) ]
    else
      [ Vertex(Vec3(-h, -h, -h), Vec3(-1.0, 0.0, 0.0), 0.0, 0.0),
        Vertex(Vec3(-h, -h, h), Vec3(-1.0, 0.0, 0.0), 1.0, 0.0),
        Vertex(Vec3(-h, h, h), Vec3(-1.0, 0.0, 0.0), 1.0, 1.0),
        Vertex(Vec3(-h, h, -h), Vec3(-1.0, 0.0, 0.0), 0.0, 1.0) ]
  }

  /** The cube of edge `size` centred on the origin: the quads of the six
      faces one after the other, and two triangles per quad. */
  function NewCubeMesh(size: real): (m: CubeMesh)
    ensures |m.vertices| == 24 && |m.indices| == 36
    ensures forall i :: 0 <= i < 36 ==> 0 <= m.indices[i] < |m.vertices|
  {
    var h := size / 2.0;
    CubeMesh(
      FaceQuad(Front, h) + FaceQuad(Back, h) + FaceQuad(Top, h)
        + FaceQuad(Bottom, h) + FaceQuad(Right, h) + FaceQuad(Left, h),
      [ 0, 1, 2, 2, 3, 0,
        4, 5, 6, 6, 7, 4,
        8, 9, 10, 10, 11, 8,
        12, 13, 14, 14, 15, 12,
        16, 17, 18, 18, 19, 16,
        20, 21, 22, 22, 23, 20 ])
  }

  /** Vertex 4k + j of the cube is corner j of face k's quad. */
  lemma {:induction false} CubeVertexOfFace(size: real, k: int, j: int)
    requires 0 <= k < 6 && 0 <= j < 4
    ensures NewCubeMesh(size).vertices[4 * k + j] == FaceQuad(CubeFaces[k], size / 2.0)[j]
  {
    var h := size / 2.0;
    var q0, q1, q2 := FaceQuad(Front, h), FaceQuad(Back, h), FaceQuad(Top, h);
    var q3, q4, q5 := FaceQuad(Bottom, h), FaceQuad(Right, h), FaceQuad(Left, h);
    var vs := q0 + q1 + q2 + q3 + q4 + q5;
    assert NewCubeMesh(size).vertices == vs;
    if k == 5 { assert vs[4 * k + j] == q5[j]; }
    else if k == 4 { assert (q0 + q1 + q2 + q3 + q4)[4 * k + j] == q4[j]; }
    else if k == 3 { assert (q0 + q1 + q2 + q3)[4 * k + j] == q3[j]; }
    else if k == 2 { assert (q0 + q1 + q2)[4 * k + j] == q2[j]; }
    else if k == 1 { assert (q0 + q1)[4 * k + j] == q1[j]; }
  }

  /** The offsets, within its face's quad, of the six indices of a face. */
  const QuadTriangles: seq<int> := [0, 1, 2, 2, 3, 0]

  /** Face k of the cube is drawn as the quad 4k, 4k+1, 4k+2, 4k+3 split
      along the diagonal from 4k to 4k+2. */
  lemma {:induction false} CubeIndexOfFace(size: real, k: int, j: int)
    requires 0 <= k < 6 && 0 <= j < 6
    ensures NewCubeMesh(size).indices[6 * k + j] == 4 * k + QuadTriangles[j]
  {
    var ix := NewCubeMesh(size).indices;
    assert k in {0, 1, 2, 3, 4, 5} && j in {0, 1, 2, 3, 4, 5};
  }

  /** The coordinate of p along the outward normal of face f. */
  function Along(p: Vec3, f: VoxelFace): real {
    if f == Top then p.y
    else if f == Bottom then -p.y
    else if f == Left then -p.x
    else if f == Right then p.x
    else if f == Front then p.z
    else -p.z
  }

  function Sub(a: Vec3, b: Vec3): Vec3 {
    Vec3(a.x - b.x, a.y - b.y, a.z - b.z)
  }

  function Cross(a: Vec3, b: Vec3): Vec3 {
    Vec3(a.y * b.z - a.z * b.y, a.z * b.x - a.x * b.z, a.x * b.y - a.y * b.x)
  }

  function Scale(s: real, a: Vec3): Vec3 {
    Vec3(s * a.x, s * a.y, s * a.z)
  }

  /** The texture coordinates of the four corners of a face, in order. */
  const TexCorners: seq<(real, real)> := [(0.0, 0.0), (1.0, 0.0), (1.0, 1.0), (0.0, 1.0)]

  /** Corner j of face f of the cube with half edge h: each coordinate is
      plus or minus h, the normal is f's, the coordinate along the normal is
      on f's side, and the texture coordinate is the j-th texture corner. */
  predicate OnFace(v: Vertex, f: VoxelFace, h: real, j: int)
    requires 0 <= j < 4
  {
    && v.position.x in {-h, h} && v.position.y in {-h, h} && v.position.z in {-h, h}
    && v.normal == GetFaceNormal(f)
    && Along(v.position, f) == h
    && (v.u, v.v) == TexCorners[j]
  }

  /** The triangle a, b, c is wound outward: its three vertices share a
      normal, and the cross product of its two edges from a is that normal
      scaled by size squared, so seen from outside the cube the triangle is
      counter-clockwise. */
  predicate Outward(a: Vertex, b: Vertex, c: Vertex, size: real) {
    && a.normal == b.normal == c.normal
    && Cross(Sub(b.position, a.position), Sub(c.position, a.position)) == Scale(size * size, a.normal)
  }

  /** Triangle d (0 or 1) of a quad: corners 0, 1, 2 or corners 2, 3, 0. */
  function QuadTriangle(q: seq<Vertex>, d: int): (Vertex, Vertex, Vertex)
    requires |q| == 4
  {
    if d == 0 then (q[0], q[1], q[2]) else (q[2], q[3], q[0])
  }

  /** The quad q is the face f of the cube of edge `size`: its corners lie
      on f with the texture corners in order, and both of its triangles are
      wound outward. */
  predicate FaceShape(q: seq<Vertex>, f: VoxelFace, size: real) {
    && |q| == 4
    && (forall j :: 0 <= j < 4 ==> OnFace(q[j], f, size / 2.0, j))
    && Outward(q[0], q[1], q[2], size) && Outward(q[2], q[3], q[0], size)
  }

  /** Each face's quad in the table has the shape of that face. */
  lemma {:induction false} FaceQuadShape(f: VoxelFace, size: real)
    requires f in CubeFaces
    ensures FaceShape(FaceQuad(f, size / 2.0), f, size)
  {
    if f == Front { FrontShape(size); }
    else if f == Back { BackShape(size); }
    else if f == Top { TopShape(size); }
    else if f == Bottom { BottomShape(size); }
    else if f == Right { RightShape(size); }
    else { LeftShape(size); }
  }

  lemma {:induction false} FrontShape(size: real)
    ensures FaceShape(FaceQuad(Front, size / 2.0), Front, size)
  {
    var q := FaceQuad(Front, size / 2.0);
    assert OnFace(q[0], Front, size / 2.0, 0) && OnFace(q[1], Front, size / 2.0, 1);
    assert OnFace(q[2], Front, size / 2.0, 2) && OnFace(q[3], Front, size / 2.0, 3);
  }

  lemma {:induction false} BackShape(size: real)
    ensures FaceShape(FaceQuad(Back, size / 2.0), Back, size)
  {
    var q := FaceQuad(Back, size / 2.0);
    assert OnFace(q[0], Back, size / 2.0, 0) && OnFace(q[1], Back, size / 2.0, 1);
    assert OnFace(q[2], Back, size / 2.0, 2) && OnFace(q[3], Back, size / 2.0, 3);
  }

  lemma {:induction false} TopShape(size: real)
    ensures FaceShape(FaceQuad(Top, size / 2.0), Top, size)
  {
    var q := FaceQuad(Top, size / 2.0);
    assert OnFace(q[0], Top, size / 2.0, 0) && OnFace(q[1], Top, size / 2.0, 1);
    assert OnFace(q[2], Top, size / 2.0, 2) && OnFace(q[3], Top, size / 2.0, 3);
  }

  lemma {:induction false} BottomShape(size: real)
    ensures FaceShape(FaceQuad(Bottom, size / 2.0), Bottom, size)
  {
    var q := FaceQuad(Bottom, size / 2.0);
    assert OnFace(q[0], Bottom, size / 2.0, 0) && OnFace(q[1], Bottom, size / 2.0, 1);
    assert OnFace(q[2], Bottom, size / 2.0, 2) && OnFace(q[3], Bottom, size / 2.0, 3);
  }

  lemma {:induction false} RightShape(size: real)
    ensures FaceShape(FaceQuad(Right, size / 2.0), Right, size)
  {
    var q := FaceQuad(Right, size / 2.0);
    assert OnFace(q[0], Right, size / 2.0, 0) && OnFace(q[1], Right, size / 2.0, 1);
    assert OnFace(q[2], Right, size / 2.0, 2) && OnFace(q[3], Right, size / 2.0, 3);
  }

  lemma {:induction false} LeftShape(size: real)
    ensures FaceShape(FaceQuad(Left, size / 2.0), Left, size)
  {
    var q := FaceQuad(Left, size / 2.0);
    assert OnFace(q[0], Left, size / 2.0, 0) && OnFace(q[1], Left, size / 2.0, 1);
    assert OnFace(q[2], Left, size / 2.0, 2) && OnFace(q[3], Left, size / 2.0, 3);
  }

  /** Where corner j of face k sits in the vertex table. */
  function VertexSlot(k: int, j: int): int {
    4 * k + j
  }

  /** Where entry j of face k's six indices sits in the index table. */
  function IndexSlot(k: int, j: int): int {
    6 * k + j
  }

  /** A mesh laid out like the cube of edge `size`: face k's quad is
      vertices 4k to 4k + 3, and face k's six indices are 4k plus
      QuadTriangles. */
  ghost predicate CubeLayout(m: CubeMesh, size: real) {
    && |m.vertices| == 24 && |m.indices| == 36
    && (forall k, j :: 0 <= k < 6 && 0 <= j < 4 ==> m.vertices[VertexSlot(k, j)] == FaceQuad(CubeFaces[k], size / 2.0)[j])
    && (forall k, j :: 0 <= k < 6 && 0 <= j < 6 ==> m.indices[IndexSlot(k, j)] == 4 * k + QuadTriangles[j])
  }

  lemma {:induction false} NewCubeMeshLayout(size: real)
    ensures CubeLayout(NewCubeMesh(size), size)
  {
    forall k, j | 0 <= k < 6 && 0 <= j < 4
      ensures NewCubeMesh(size).vertices[VertexSlot(k, j)] == FaceQuad(CubeFaces[k], size / 2.0)[j]
    {
      CubeVertexOfFace(size, k, j);
    }
    forall k, j | 0 <= k < 6 && 0 <= j < 6
      ensures NewCubeMesh(size).indices[IndexSlot(k, j)] == 4 * k + QuadTriangles[j]
    {
      CubeIndexOfFace(size, k, j);
    }
  }

  /** The cube's table: vertices 4k to 4k + 3 are the quad of face k, which
      has the shape of that face, and face k is drawn as the two triangles
      of its quad. */
  lemma {:induction false} NewCubeMeshShape(size: real)
    ensures CubeLayout(NewCubeMesh(size), size)
    ensures forall k :: 0 <= k < 6 ==> FaceShape(FaceQuad(CubeFaces[k], size / 2.0), CubeFaces[k], size)
  {
    NewCubeMeshLayout(size);
    forall k | 0 <= k < 6
      ensures FaceShape(FaceQuad(CubeFaces[k], size / 2.0), CubeFaces[k], size)
    {
      FaceQuadShape(CubeFaces[k], size);
    }
  }

  /** Triangle t of a mesh: the vertices its three indices name. */
  function Triangle(m: CubeMesh, t: int): (Vertex, Vertex, Vertex)
    requires 0 <= t && 3 * t + 3 <= |m.indices|
    requires forall i :: 0 <= i < |m.indices| ==> 0 <= m.indices[i] < |m.vertices|
  {
    (m.vertices[m.indices[3 * t]], m.vertices[m.indices[3 * t + 1]], m.vertices[m.indices[3 * t + 2]])
  }

  /** Triangle 2k + d of a mesh laid out like the cube is triangle d of
      face k's quad. */
  lemma {:induction false} LayoutTriangle(m: CubeMesh, size: real, k: int, d: int)
    requires CubeLayout(m, size) && 0 <= k < 6 && 0 <= d < 2
    requires forall i :: 0 <= i < |m.indices| ==> 0 <= m.indices[i] < |m.vertices|
    ensures Triangle(m, 2 * k + d) == QuadTriangle(FaceQuad(CubeFaces[k], size / 2.0), d)
  {
    var j := 3 * d;
    assert m.indices[IndexSlot(k, j)] == 4 * k + QuadTriangles[j];
    assert m.indices[IndexSlot(k, j + 1)] == 4 * k + QuadTriangles[j + 1];
    assert m.indices[IndexSlot(k, j + 2)] == 4 * k + QuadTriangles[j + 2];
    assert m.vertices[VertexSlot(k, 0)] == FaceQuad(CubeFaces[k], size / 2.0)[0];
    assert m.vertices[VertexSlot(k, 1)] == FaceQuad(CubeFaces[k], size / 2.0)[1];
    assert m.vertices[VertexSlot(k, 2)] == FaceQuad(CubeFaces[k], size / 2.0)[2];
    assert m.vertices[VertexSlot(k, 3)] == FaceQuad(CubeFaces[k], size / 2.0)[3];
  }

  /** Both triangles of a quad with the shape of a face are wound outward. */
  lemma {:induction false} ShapeTriangleOutward(q: seq<Vertex>, f: VoxelFace, size: real, d: int)
    requires FaceShape(q, f, size)
    ensures var (a, b, c) := QuadTriangle(q, d); Outward(a, b, c, size)
  {
  }

  /** The twelve triangles of the cube, two per face, are all wound
      outward, whatever the size. */
  lemma {:induction false} CubeWoundOutward(size: real)
    ensures var m := NewCubeMesh(size);
            forall t :: 0 <= t < 12 ==> var (a, b, c) := Triangle(m, t); Outward(a, b, c, size)
  {
    var m := NewCubeMesh(size);
    NewCubeMeshShape(size);
    forall t | 0 <= t < 12
      ensures var (a, b, c) := Triangle(m, t); Outward(a, b, c, size)
    {
      var k, d := t / 2, t % 2;
      LayoutTriangle(m, size, k, d);
      ShapeTriangleOutward(FaceQuad(CubeFaces[k], size / 2.0), CubeFaces[k], size, d);
    }
  }
}
