/**
 * Voxel types, voxel positions and the six voxel faces (pkg/voxel/voxel.go).
 *
 * `VoxelType` is a byte in the source, so the ten named types are the values
 * 0..9 and every other byte is a legal but unnamed type; `VoxelFace` is an
 * `int`, so the face tables keep their default branches.
 */
module Voxels {

  newtype VoxelType = b: int | 0 <= b < 256

  const Air: VoxelType := 0
  const Stone: VoxelType := 1
  const Dirt: VoxelType := 2
  const Grass: VoxelType := 3
  const Sand: VoxelType := 4
  const Water: VoxelType := 5
  const Wood: VoxelType := 6
  const Leaves: VoxelType := 7
  const Glass: VoxelType := 8
  const Brick: VoxelType := 9

  /** The ten types the source names. */
  predicate IsNamedType(t: VoxelType) {
    t <= Brick
  }

  /** A voxel carries nothing but its type; it is a value. */
  datatype Voxel = Voxel(voxelType: VoxelType) {

    predicate IsAir() {
      voxelType == Air
    }

    predicate IsSolid() {
      !IsAir()
    }

    predicate IsTransparent() {
      voxelType == Air || voxelType == Water || voxelType == Glass
    }

    predicate IsOpaque() {
      !IsTransparent()
    }

    function GetName(): (name: string)
      ensures name == "Unknown" <==> !IsNamedType(voxelType)
      ensures name == "Air" <==> IsAir()
    {
      match voxelType
      case 0 => "Air"
      case 1 => "Stone"
      case 2 => "Dirt"
      case 3 => "Grass"
      case 4 => "Sand"
      case 5 => "Water"
      case 6 => "Wood"
      case 7 => "Leaves"
      case 8 => "Glass"
      case 9 => "Brick"
      case _ => "Unknown"
    }
  }

  /** Solidity is the negation of air, opacity the negation of transparency,
      and exactly Air, Water and Glass are transparent; so every opaque voxel
      is solid, and air is transparent. */
  lemma ClassificationTable(v: Voxel)
    ensures v.IsSolid() <==> !v.IsAir()
    ensures v.IsOpaque() <==> !v.IsTransparent()
    ensures v.IsTransparent() <==> v.voxelType in {Air, Water, Glass}
    ensures v.IsOpaque() ==> v.IsSolid()
    ensures v.IsAir() ==> v.IsTransparent()
  {
  }

  /** The ten named types have ten distinct names. */
  lemma NamesAreDistinct(s: VoxelType, t: VoxelType)
    requires IsNamedType(s) && IsNamedType(t) && s != t
    ensures Voxel(s).GetName() != Voxel(t).GetName()
  {
  }

  /** An integer position in voxel space; each voxel is a unit cube whose
      lower corner sits at the position. */
  datatype VoxelPosition = VoxelPosition(x: int, y: int, z: int) {

    function Add(other: VoxelPosition): VoxelPosition {
      VoxelPosition(x + other.x, y + other.y, z + other.z)
    }

    function Sub(other: VoxelPosition): VoxelPosition {
      VoxelPosition(x - other.x, y - other.y, z - other.z)
    }

    /** Manhattan distance. */
    function Distance(other: VoxelPosition): (d: int)
      ensures d >= 0
      ensures d == 0 <==> this == other
    {
      Abs(x - other.x) + Abs(y - other.y) + Abs(z - other.z)
    }
  }

  /** Adding and then subtracting the same position is the identity, and the
      distance between two positions is the size of their difference. */
  lemma AddSubRoundTrip(p: VoxelPosition, q: VoxelPosition)
    ensures p.Add(q).Sub(q) == p && p.Sub(q).Add(q) == p
    ensures p.Distance(q) == Origin.Distance(p.Sub(q))
    ensures p.Add(q).Distance(p) == Origin.Distance(q)
  {
  }

  function Abs(n: int): (r: int)
    ensures r >= 0
  {
    if n < 0 then -n else n
  }

  const Origin := VoxelPosition(0, 0, 0)

  /** Distance does not depend on the order of its arguments and obeys the
      triangle inequality. */
  lemma DistanceIsAMetric(p: VoxelPosition, q: VoxelPosition, r: VoxelPosition)
    ensures p.Distance(q) == q.Distance(p)
    ensures p.Distance(r) <= p.Distance(q) + q.Distance(r)
  {
  }

  /** The two distances the source's own tests pin down. */
  lemma DistanceExamples()
    ensures Origin.Distance(VoxelPosition(3, 4, 5)) == 12
    ensures Origin.Distance(VoxelPosition(-2, -3, -4)) == 9
  {
  }

  /** A voxel position as a float vector in world units (exact here). */
  datatype Vec3 = Vec3(x: real, y: real, z: real)

  /** Each voxel is one world unit on a side: the corner of voxel p sits at
      whole coordinates that round back down to p. */
  function ToWorldSpace(p: VoxelPosition): (w: Vec3)
    ensures w.x.Floor == p.x && w.y.Floor == p.y && w.z.Floor == p.z
    ensures w.x == w.x.Floor as real && w.y == w.y.Floor as real && w.z == w.z.Floor as real
  {
    Vec3(p.x as real, p.y as real, p.z as real)
  }

  /** Distinct voxels have distinct corners, and a step between voxels is the
      same step in world units. */
  lemma ToWorldSpaceFaithful(p: VoxelPosition, q: VoxelPosition)
    ensures ToWorldSpace(p) == ToWorldSpace(q) <==> p == q
    ensures var (a, b, s) := (ToWorldSpace(p), ToWorldSpace(q), ToWorldSpace(p.Add(q)));
            s == Vec3(a.x + b.x, a.y + b.y, a.z + b.z)
  {
    if ToWorldSpace(p) == ToWorldSpace(q) {
      assert p.x == ToWorldSpace(p).x.Floor == ToWorldSpace(q).x.Floor == q.x;
      assert p.y == ToWorldSpace(p).y.Floor == ToWorldSpace(q).y.Floor == q.y;
      assert p.z == ToWorldSpace(p).z.Floor == ToWorldSpace(q).z.Floor == q.z;
    }
  }

  newtype VoxelFace = int

  const Top: VoxelFace := 0
  const Bottom: VoxelFace := 1
  const Left: VoxelFace := 2
  const Right: VoxelFace := 3
  const Front: VoxelFace := 4
  const Back: VoxelFace := 5

  /** The six faces the source names; other values reach the default branches. */
  predicate IsFace(f: VoxelFace) {
    Top <= f <= Back
  }

  /** A unit step along exactly one axis. */
  predicate IsUnitStep(p: VoxelPosition) {
    || (p.x in {-1, 1} && p.y == 0 && p.z == 0)
    || (p.x == 0 && p.y in {-1, 1} && p.z == 0)
    || (p.x == 0 && p.y == 0 && p.z in {-1, 1})
  }

  function GetFaceNormal(face: VoxelFace): (n: Vec3)
    ensures n == Vec3(GetFaceOffset(face).x as real, GetFaceOffset(face).y as real, GetFaceOffset(face).z as real)
  {
    if face == Top then Vec3(0.0, 1.0, 0.0)
    else if face == Bottom then Vec3(0.0, -1.0, 0.0)
    else if face == Left then Vec3(-1.0, 0.0, 0.0)
    else if face == Right then Vec3(1.0, 0.0, 0.0)
    else if face == Front then Vec3(0.0, 0.0, 1.0)
    else if face == Back then Vec3(0.0, 0.0, -1.0)
    else Vec3(0.0, 0.0, 0.0)
  }

  function GetFaceOffset(face: VoxelFace): (offset: VoxelPosition)
    ensures IsFace(face) ==> IsUnitStep(offset)
    ensures !IsFace(face) ==> offset == Origin
  {
    if face == Top then VoxelPosition(0, 1, 0)
    else if face == Bottom then VoxelPosition(0, -1, 0)
    else if face == Left then VoxelPosition(-1, 0, 0)
    else if face == Right then VoxelPosition(1, 0, 0)
    else if face == Front then VoxelPosition(0, 0, 1)
    else if face == Back then VoxelPosition(0, 0, -1)
    else VoxelPosition(0, 0, 0)
  }

  /** Each face steps along its own axis and direction: Top = +Y,
      Bottom = -Y, Left = -X, Right = +X, Front = +Z, Back = -Z. */
  lemma FaceOffsetTable()
    ensures GetFaceOffset(Top).y == 1 && GetFaceOffset(Bottom).y == -1
    ensures GetFaceOffset(Left).x == -1 && GetFaceOffset(Right).x == 1
    ensures GetFaceOffset(Front).z == 1 && GetFaceOffset(Back).z == -1
  {
    assert GetFaceOffset(Top) == VoxelPosition(0, 1, 0);
    assert GetFaceOffset(Bottom) == VoxelPosition(0, -1, 0);
    assert GetFaceOffset(Left) == VoxelPosition(-1, 0, 0);
    assert GetFaceOffset(Right) == VoxelPosition(1, 0, 0);
    assert GetFaceOffset(Front) == VoxelPosition(0, 0, 1);
    assert GetFaceOffset(Back) == VoxelPosition(0, 0, -1);
  }

  /** No two faces share an offset: the offset determines the face. */
  lemma {:induction false} FaceOffsetInjective(f: VoxelFace, g: VoxelFace)
    requires IsFace(f) && IsFace(g)
    requires GetFaceOffset(f) == GetFaceOffset(g)
    ensures f == g
  {
    FaceOfOffset(f);
    FaceOfOffset(g);
  }

  lemma FaceOfOffset(f: VoxelFace)
    requires IsFace(f)
    ensures FaceCode(GetFaceOffset(f)) == f
  {
  }

  /** Recovers a face from its offset. */
  function FaceCode(p: VoxelPosition): VoxelFace {
    if p.y == 1 then Top else if p.y == -1 then Bottom
    else if p.x == -1 then Left else if p.x == 1 then Right
    else if p.z == 1 then Front else Back
  }
}
