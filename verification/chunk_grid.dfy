/**
 * The voxel grid of one chunk, as a value (the pure part of
 * pkg/chunk/chunk_data.go): local coordinates, the flat index of a cell,
 * reading a cell, and reading past the chunk's edge through a neighbour.
 *
 * A grid is the sequence of the chunk's `Volume` voxels, cell
 * `x + y * 32 + z * 1024` holding local coordinate (x, y, z).
 */
module ChunkGrid {
  import opened Options
  import opened Voxels
  import opened ChunkPositions

  /** Number of voxels in one chunk. */
  const Volume: int := ChunkSize * ChunkSize * ChunkSize

  predicate IsValidLocalCoord(x: int, y: int, z: int) {
    0 <= x < ChunkSize && 0 <= y < ChunkSize && 0 <= z < ChunkSize
  }

  /** The flat index of a local coordinate; x varies fastest. */
  function LocalToIndex(x: int, y: int, z: int): (i: int)
    ensures IsValidLocalCoord(x, y, z) ==> 0 <= i < Volume
  {
    x + y * ChunkSize + z * ChunkSize * ChunkSize
  }

  /** The local coordinate of a flat index, with Go's truncating division. */
  function IndexToLocal(index: int): (int, int, int) {
    var z := GoDiv(index, ChunkSize * ChunkSize);
    var rest := index - z * ChunkSize * ChunkSize;
    (GoRem(rest, ChunkSize), GoDiv(rest, ChunkSize), z)
  }

  /** IndexToLocal undoes LocalToIndex on every valid local coordinate. */
  lemma {:induction false} IndexToLocalInvertsLocalToIndex(x: int, y: int, z: int)
    requires IsValidLocalCoord(x, y, z)
    ensures IndexToLocal(LocalToIndex(x, y, z)) == (x, y, z)
  {
    var i := LocalToIndex(x, y, z);
    DivisionIsUnique(i, ChunkSize * ChunkSize, z, x + y * ChunkSize);
    DivisionIsUnique(x + y * ChunkSize, ChunkSize, y, x);
  }

  /** Every index of the grid is the index of exactly the valid local
      coordinate IndexToLocal returns for it. */
  lemma {:induction false} LocalToIndexInvertsIndexToLocal(i: int)
    requires 0 <= i < Volume
    ensures var (x, y, z) := IndexToLocal(i);
            IsValidLocalCoord(x, y, z) && LocalToIndex(x, y, z) == i
  {
    var z, rest := i / (ChunkSize * ChunkSize), i % (ChunkSize * ChunkSize);
    assert i == z * (ChunkSize * ChunkSize) + rest;
    assert 0 <= z < ChunkSize;
    var y, x := rest / ChunkSize, rest % ChunkSize;
    assert rest == y * ChunkSize + x;
  }

  /** Distinct valid local coordinates have distinct indices. */
  lemma {:induction false} LocalToIndexInjective(x: int, y: int, z: int, x': int, y': int, z': int)
    requires IsValidLocalCoord(x, y, z) && IsValidLocalCoord(x', y', z')
    requires LocalToIndex(x, y, z) == LocalToIndex(x', y', z')
    ensures (x, y, z) == (x', y', z')
  {
    IndexToLocalInvertsLocalToIndex(x, y, z);
    IndexToLocalInvertsLocalToIndex(x', y', z');
  }

  predicate AllAir(grid: seq<Voxel>) {
    forall i :: 0 <= i < |grid| ==> grid[i].IsAir()
  }

  /** The voxel at a local coordinate; Air outside the chunk. */
  function VoxelAt(grid: seq<Voxel>, x: int, y: int, z: int): (v: Voxel)
    requires |grid| == Volume
    ensures !IsValidLocalCoord(x, y, z) ==> v.IsAir()
  {
    if IsValidLocalCoord(x, y, z) then grid[LocalToIndex(x, y, z)] else Voxel(Air)
  }

  /** A grid is all air exactly when every local coordinate reads air. */
  lemma {:induction false} AllAirReadsAir(grid: seq<Voxel>)
    requires |grid| == Volume
    ensures AllAir(grid) <==> forall x, y, z :: VoxelAt(grid, x, y, z).IsAir()
  {
    if !AllAir(grid) {
      var i :| 0 <= i < |grid| && !grid[i].IsAir();
      LocalToIndexInvertsIndexToLocal(i);
      var (x, y, z) := IndexToLocal(i);
      assert !VoxelAt(grid, x, y, z).IsAir();
    }
  }

  /** Writing one cell changes what that cell reads and no other. */
  lemma {:induction false} ReadAfterWrite(grid: seq<Voxel>, x: int, y: int, z: int, v: Voxel, x': int, y': int, z': int)
    requires |grid| == Volume && IsValidLocalCoord(x, y, z)
    ensures VoxelAt(grid[LocalToIndex(x, y, z) := v], x', y', z')
         == if (x', y', z') == (x, y, z) then v else VoxelAt(grid, x', y', z')
  {
    if IsValidLocalCoord(x', y', z') && (x', y', z') != (x, y, z) {
      if LocalToIndex(x, y, z) == LocalToIndex(x', y', z') {
        LocalToIndexInjective(x, y, z, x', y', z');
      }
    }
  }

  /** What a chunk sees of the world: its own grid and, per face, the grid of
      the neighbour in that slot, if any. */
  datatype Neighborhood = Neighborhood(own: seq<Voxel>, sides: seq<Option<seq<Voxel>>>) {
    predicate Valid() {
      && |own| == Volume
      && |sides| == 6
      && forall f :: 0 <= f < 6 && sides[f].Some? ==> |sides[f].value| == Volume
    }
  }

  /** The neighbour slot a coordinate outside the chunk is looked up in, and
      the coordinate inside that neighbour: the first axis that is out of
      range, low before high, x before y before z, is moved to the opposite
      edge; the other two axes are kept. */
  function Redirect(x: int, y: int, z: int): (r: (VoxelFace, int, int, int))
    ensures IsFace(r.0)
  {
    if x < 0 then (Left, ChunkSize - 1, y, z)
    else if x >= ChunkSize then (Right, 0, y, z)
    else if y < 0 then (Bottom, x, ChunkSize - 1, z)
    else if y >= ChunkSize then (Top, x, 0, z)
    else if z < 0 then (Back, x, y, ChunkSize - 1)
    else (Front, x, y, 0)
  }

  /** The voxel a chunk reads at a local coordinate that may lie outside it:
      its own cell when in range, otherwise the redirected cell of the
      neighbour in the redirected slot, and Air when that slot is empty. */
  function SafeVoxel(nb: Neighborhood, x: int, y: int, z: int): Voxel
    requires nb.Valid()
  {
    if IsValidLocalCoord(x, y, z) then VoxelAt(nb.own, x, y, z)
    else
      var (face, nx, ny, nz) := Redirect(x, y, z);
      match nb.sides[face as int]
      case None => Voxel(Air)
      case Some(g) => VoxelAt(g, nx, ny, nz)
  }

  /** One step out of a cell through a face reads either the chunk's own
      cell or, when the step leaves the chunk, the neighbour on that very
      face at the local coordinate the global coordinate splits into. */
  lemma {:induction false} SafeVoxelAcrossFace(nb: Neighborhood, x: int, y: int, z: int, face: VoxelFace)
    requires nb.Valid() && IsValidLocalCoord(x, y, z) && IsFace(face)
    ensures var o := GetFaceOffset(face);
            var (gx, gy, gz) := (x + o.x, y + o.y, z + o.z);
            SafeVoxel(nb, gx, gy, gz)
            == if IsValidLocalCoord(gx, gy, gz) then VoxelAt(nb.own, gx, gy, gz)
               else match nb.sides[face as int]
                    case None => Voxel(Air)
                    case Some(g) => VoxelAt(g, Mod(gx, ChunkSize), Mod(gy, ChunkSize), Mod(gz, ChunkSize))
  {
    var o := GetFaceOffset(face);
    if !IsValidLocalCoord(x + o.x, y + o.y, z + o.z) {
      RedirectAcrossFace(x, y, z, face);
    }
  }

  /** Where a coordinate at most one step outside the chunk lands on the far
      side: the opposite edge, or itself when it is inside. */
  function WrapOneStep(c: int): (r: int)
    requires -1 <= c <= ChunkSize
    ensures 0 <= r < ChunkSize
    ensures r == Mod(c, ChunkSize)
  {
    ModIsFloorMod(c, ChunkSize);
    if c < 0 then
      DivisionIsUnique(c, ChunkSize, -1, ChunkSize - 1);
      ChunkSize - 1
    else if c == ChunkSize then
      DivisionIsUnique(c, ChunkSize, 1, 0);
      0
    else
      DivisionIsUnique(c, ChunkSize, 0, c);
      c
  }

  /** Stepping out of the chunk through a face is redirected to that face's
      slot, at the coordinate wrapped to the far side. */
  lemma {:induction false} RedirectAcrossFace(x: int, y: int, z: int, face: VoxelFace)
    requires IsValidLocalCoord(x, y, z) && IsFace(face)
    requires var o := GetFaceOffset(face); !IsValidLocalCoord(x + o.x, y + o.y, z + o.z)
    ensures var o := GetFaceOffset(face);
            Redirect(x + o.x, y + o.y, z + o.z)
            == (face, WrapOneStep(x + o.x), WrapOneStep(y + o.y), WrapOneStep(z + o.z))
  {
  }

  /** How far past the low x edge a coordinate lies does not matter: every
      such coordinate reads the neighbour's last column. */
  lemma {:induction false} SafeVoxelIgnoresDistance(nb: Neighborhood, d: int, y: int, z: int)
    requires nb.Valid() && d >= 1
    ensures SafeVoxel(nb, -d, y, z) == SafeVoxel(nb, -1, y, z)
  {
  }

  /** A coordinate outside the chunk on two axes at once reads Air: only one
      axis is redirected, so the neighbour's read is still out of range. */
  lemma {:induction false} SafeVoxelDiagonalIsAir(nb: Neighborhood, x: int, y: int, z: int)
    requires nb.Valid()
    requires !(0 <= x < ChunkSize) && !(0 <= y < ChunkSize)
    ensures SafeVoxel(nb, x, y, z).IsAir()
  {
  }
}
