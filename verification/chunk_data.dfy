/**
 * A chunk: 32 x 32 x 32 voxels stored in one flat array, six neighbour
 * slots and the dirty / modified / empty flags (pkg/chunk/chunk_data.go),
 * together with the chunk's own mesh generation (pkg/chunk/chunk_mesh.go).
 *
 * A neighbour slot holds the position of the neighbouring chunk rather than
 * a reference to it; the chunk it names is looked up in `world`, the map of
 * loaded chunks, and a slot naming a position that is not loaded reads as an
 * empty slot.
 */
module Chunks {
  import opened Options
  import opened Voxels
  import opened ChunkPositions
  import opened ChunkGrid
  import opened ChunkMeshes

  /** Every chunk of the world has a full voxel array. */
  ghost predicate Sized(world: map<ChunkPosition, Chunk>) {
    forall p {:trigger world[p]} :: p in world ==> world[p].voxels.Length == Volume
  }

  /** The voxel arrays of the chunks of the world. */
  ghost function WorldArrays(world: map<ChunkPosition, Chunk>): set<array<Voxel>> {
    set p | p in world :: world[p].voxels
  }

  /** cells reads as the chunk's own grid wherever that grid is read. */
  ghost predicate CellsAgree(nb: Neighborhood, cells: CellKind) {
    forall a, b, c {:trigger ChunkCells(nb)(a, b, c)} :: cells(a, b, c) == ChunkCells(nb)(a, b, c)
  }

  /** rule culls as the chunk's own rule wherever that rule is asked. */
  ghost predicate RuleAgrees(nb: Neighborhood, rule: FaceRule) {
    forall a, b, c, f {:trigger ChunkRule(nb)(a, b, c, f)} :: rule(a, b, c, f) == ChunkRule(nb)(a, b, c, f)
  }

  class Chunk {
    const position: ChunkPosition
    const voxels: array<Voxel>
    var neighbors: seq<Option<ChunkPosition>>
    var isDirty: bool
    var isModified: bool
    var isEmpty: bool

    /** The class invariant: a full voxel array, six slots, and `isEmpty`
        exactly when every voxel is air. */
    ghost predicate Valid()
      reads this, voxels
    {
      && voxels.Length == Volume
      && |neighbors| == 6
      && (isEmpty <==> AllAir(voxels[..]))
    }

    /** A new chunk is all air, dirty, empty, unmodified and unwired. */
    constructor (position: ChunkPosition)
      ensures Valid() && fresh(voxels)
      ensures this.position == position
      ensures forall i :: 0 <= i < voxels.Length ==> voxels[i] == Voxel(Air)
      ensures neighbors == [None, None, None, None, None, None]
      ensures isDirty && isEmpty && !isModified
    {
      this.position := position;
      var a := new Voxel[Volume];
      var i := 0;
      while i < Volume
        invariant 0 <= i <= Volume
        invariant forall j :: 0 <= j < i ==> a[j] == Voxel(Air)
      {
        a[i] := Voxel(Air);
        i := i + 1;
      }
      voxels := a;
      neighbors := [None, None, None, None, None, None];
      isDirty, isEmpty, isModified := true, true, false;
    }

    /** The voxel at a local coordinate; Air outside the chunk. */
    function GetVoxel(x: int, y: int, z: int): (v: Voxel)
      requires voxels.Length == Volume
      reads this, voxels
      ensures v == VoxelAt(voxels[..], x, y, z)
    {
      if !IsValidLocalCoord(x, y, z) then Voxel(Air) else voxels[LocalToIndex(x, y, z)]
    }

    /** Stores v at a valid local coordinate when its type differs from the
        stored one, marking the chunk dirty and modified and keeping
        `isEmpty` in step; anything else changes nothing. */
    method SetVoxel(x: int, y: int, z: int, v: Voxel)
      requires Valid()
      modifies this, voxels
      ensures Valid()
      ensures var changed := IsValidLocalCoord(x, y, z) && VoxelAt(old(voxels[..]), x, y, z) != v;
              && voxels[..] == (if changed then old(voxels[..])[LocalToIndex(x, y, z) := v] else old(voxels[..]))
              && isDirty == (old(isDirty) || changed)
              && isModified == (old(isModified) || changed)
      ensures IsValidLocalCoord(x, y, z) ==> VoxelAt(voxels[..], x, y, z) == v
      ensures neighbors == old(neighbors)
    {
      if !IsValidLocalCoord(x, y, z) {
        return;
      }
      var index := LocalToIndex(x, y, z);
      var oldVoxel := voxels[index];
      if oldVoxel.voxelType != v.voxelType {
        voxels[index] := v;
        isDirty := true;
        isModified := true;
        if !v.IsAir() {
          isEmpty := false;
        } else {
          CheckIfEmpty();
        }
      }
    }

    /** Recomputes `isEmpty` by scanning for a non-air voxel. */
    method CheckIfEmpty()
      modifies this
      ensures isEmpty <==> AllAir(voxels[..])
      ensures neighbors == old(neighbors)
      ensures isDirty == old(isDirty) && isModified == old(isModified)
    {
      var i := 0;
      while i < voxels.Length
        invariant 0 <= i <= voxels.Length
        invariant forall j :: 0 <= j < i ==> voxels[j].IsAir()
      {
        if !voxels[i].IsAir() {
          isEmpty := false;
          return;
        }
        i := i + 1;
      }
      isEmpty := true;
    }

    /** Sets every voxel to the given type; the chunk is then empty exactly
        when that type is Air. */
    method Fill(voxelType: VoxelType)
      requires Valid()
      modifies this, voxels
      ensures Valid()
      ensures forall i :: 0 <= i < voxels.Length ==> voxels[i] == Voxel(voxelType)
      ensures isEmpty == (voxelType == Air)
      ensures isDirty && isModified && neighbors == old(neighbors)
    {
      var v := Voxel(voxelType);
      var i := 0;
      while i < voxels.Length
        invariant 0 <= i <= voxels.Length
        invariant forall j :: 0 <= j < i ==> voxels[j] == v
        modifies voxels
      {
        voxels[i] := v;
        i := i + 1;
      }
      isEmpty := voxelType == Air;
      isDirty := true;
      isModified := true;
      assert voxels[..][0] == v;
    }

    /** What the chunk sees of the world: its own voxels and the voxels of
        the loaded chunk each slot names. */
    ghost function View(world: map<ChunkPosition, Chunk>): (nb: Neighborhood)
      requires voxels.Length == Volume && |neighbors| == 6 && Sized(world)
      reads this, voxels, WorldArrays(world)
      ensures nb.Valid() && nb.own == voxels[..]
    {
      Neighborhood(voxels[..], [Side(world, 0), Side(world, 1), Side(world, 2), Side(world, 3), Side(world, 4), Side(world, 5)])
    }

    ghost function Side(world: map<ChunkPosition, Chunk>, f: int): (s: Option<seq<Voxel>>)
      requires |neighbors| == 6 && 0 <= f < 6 && Sized(world)
      reads this, WorldArrays(world)
      ensures s.Some? ==> |s.value| == Volume
    {
      match neighbors[f]
      case None => None
      case Some(p) => if p in world then Some(world[p].voxels[..]) else None
    }

    /** Reads a local coordinate that may lie outside the chunk, through the
        neighbour slot Redirect picks. */
    method GetVoxelSafe(x: int, y: int, z: int, world: map<ChunkPosition, Chunk>) returns (v: Voxel)
      requires voxels.Length == Volume && |neighbors| == 6 && Sized(world)
      ensures v == SafeVoxel(View(world), x, y, z)
    {
      if IsValidLocalCoord(x, y, z) {
        v := GetVoxel(x, y, z);
        return;
      }
      var neighborIndex: VoxelFace;
      var nx, ny, nz: int;
      if x < 0 {
        neighborIndex := Left;
        nx, ny, nz := ChunkSize - 1, y, z;
      } else if x >= ChunkSize {
        neighborIndex := Right;
        nx, ny, nz := 0, y, z;
      } else if y < 0 {
        neighborIndex := Bottom;
        nx, ny, nz := x, ChunkSize - 1, z;
      } else if y >= ChunkSize {
        neighborIndex := Top;
        nx, ny, nz := x, 0, z;
      } else if z < 0 {
        neighborIndex := Back;
        nx, ny, nz := x, y, ChunkSize - 1;
      } else {
        neighborIndex := Front;
        nx, ny, nz := x, y, 0;
      }
      assert Redirect(x, y, z) == (neighborIndex, nx, ny, nz);
      var neighbor := neighbors[neighborIndex as int];
      if neighbor.Some? && neighbor.value in world {
        v := world[neighbor.value].GetVoxel(nx, ny, nz);
      } else {
        v := Voxel(Air);
      }
    }

    /** Stores a neighbour in a slot and marks the chunk dirty. */
    method SetNeighbor(face: VoxelFace, neighbor: Option<ChunkPosition>)
      requires |neighbors| == 6 && IsFace(face)
      modifies this
      ensures neighbors == old(neighbors)[face as int := neighbor]
      ensures isDirty && isEmpty == old(isEmpty) && isModified == old(isModified)
    {
      neighbors := neighbors[face as int := neighbor];
      isDirty := true;
    }

    method GetNeighbor(face: VoxelFace) returns (neighbor: Option<ChunkPosition>)
      requires |neighbors| == 6 && IsFace(face)
      ensures neighbor == neighbors[face as int]
    {
      neighbor := neighbors[face as int];
    }

    /** Whether the chunk's mesh is out of date: the flag SetDirty last
        wrote. */
    function IsDirty(): (dirty: bool)
      reads this
      ensures dirty <==> isDirty
    {
      isDirty
    }

    method SetDirty(dirty: bool)
      modifies this
      ensures isDirty == dirty && IsDirty() == dirty
      ensures neighbors == old(neighbors) && isEmpty == old(isEmpty) && isModified == old(isModified)
    {
      isDirty := dirty;
    }

    /** Under the class invariant, a chunk reports empty exactly when every
        voxel is air. */
    function IsEmpty(): (empty: bool)
      reads this, voxels
      ensures Valid() ==> (empty <==> AllAir(voxels[..]))
    {
      isEmpty
    }

    /** The world position of the chunk's local origin: the voxel that
        splits into this chunk and local (0, 0, 0). */
    function GetWorldPosition(): (p: VoxelPosition)
      ensures VoxelToChunkPosition(p) == position
      ensures VoxelToLocalPosition(p) == (0, 0, 0)
    {
      var p := VoxelPosition(position.x * ChunkSize, position.y * ChunkSize, position.z * ChunkSize);
      ChunkLocalUnique(p, position, 0, 0, 0);
      p
    }

    /** The face of the cell at (x, y, z) is drawn when the voxel beyond it
        is air or transparent. */
    method IsFaceVisible(x: int, y: int, z: int, face: VoxelFace, world: map<ChunkPosition, Chunk>) returns (visible: bool)
      requires voxels.Length == Volume && |neighbors| == 6 && Sized(world)
      ensures visible == ChunkMeshes.IsFaceVisible(View(world), x, y, z, face)
    {
      var offset := GetFaceOffset(face);
      var neighbor := GetVoxelSafe(x + offset.x, y + offset.y, z + offset.z, world);
      visible := neighbor.IsAir() || neighbor.IsTransparent();
    }

    // The loops of GenerateMesh, one method per loop. Each is proved for a
    // grid `cells` and a culling rule `rule` that agree with the chunk's own
    // (CellsAgree, RuleAgrees) and states its effect on the mesh with the loop-order
    // functions of ChunkMeshes.

    /** One pass of the face loop: add the face when it is visible. */
    method EmitFace(x: int, y: int, z: int, face: VoxelFace, t: VoxelType, world: map<ChunkPosition, Chunk>, mesh: ChunkMesh,
                    ghost nb: Neighborhood, ghost rule: FaceRule, ghost origin: VoxelPosition, ghost es: seq<FaceEmit>)
      requires voxels.Length == Volume && |neighbors| == 6 && Sized(world) && nb == View(world)
      requires RuleAgrees(nb, rule) && origin == GetWorldPosition() && mesh.Holds(es)
      modifies mesh
      ensures rule(x, y, z, face) ==> mesh.Holds(es + [FaceEmit(origin.Add(VoxelPosition(x, y, z)), face, t)])
      ensures !rule(x, y, z, face) ==> mesh.Holds(es)
      ensures View(world) == nb
    {
      var visible := IsFaceVisible(x, y, z, face, world);
      assert rule(x, y, z, face) == ChunkRule(nb)(x, y, z, face) == visible;
      if visible {
        var position := GetWorldPosition().Add(VoxelPosition(x, y, z));
        EmitAppend(es, FaceEmit(position, face, t));
        mesh.AddFace(position, face, t);
      }
    }

    /** The face loop of a non-air cell of type t. */
    method EmitFaces(x: int, y: int, z: int, t: VoxelType, world: map<ChunkPosition, Chunk>, mesh: ChunkMesh,
                     ghost nb: Neighborhood, ghost rule: FaceRule, ghost origin: VoxelPosition, ghost es: seq<FaceEmit>)
      requires voxels.Length == Volume && |neighbors| == 6 && Sized(world) && nb == View(world)
      requires RuleAgrees(nb, rule) && origin == GetWorldPosition() && mesh.Holds(es)
      modifies mesh
      ensures mesh.Holds(es + VisibleFaces(rule, t, origin, x, y, z, 6))
      ensures View(world) == nb
    {
      ghost var done := es;
      var face := Top;
      while face <= Back
        invariant Top <= face <= Back + 1
        invariant mesh.Holds(done) && done == es + VisibleFaces(rule, t, origin, x, y, z, face as int)
        invariant View(world) == nb
        modifies mesh
      {
        EmitFace(x, y, z, face, t, world, mesh, nb, rule, origin, done);
        if rule(x, y, z, face) {
          done := done + [FaceEmit(origin.Add(VoxelPosition(x, y, z)), face, t)];
        }
        face := face + 1;
      }
    }

    /** The body of the innermost loop: skip air, else add every visible
        face of the cell in face order. */
    method EmitCell(x: int, y: int, z: int, world: map<ChunkPosition, Chunk>, mesh: ChunkMesh,
                    ghost nb: Neighborhood, ghost cells: CellKind, ghost rule: FaceRule, ghost origin: VoxelPosition, ghost es: seq<FaceEmit>)
      requires voxels.Length == Volume && |neighbors| == 6 && Sized(world) && nb == View(world)
      requires CellsAgree(nb, cells) && RuleAgrees(nb, rule) && origin == GetWorldPosition()
      requires IsValidLocalCoord(x, y, z) && mesh.Holds(es)
      modifies mesh
      ensures mesh.Holds(es + CellFaces(cells, rule, origin, x, y, z))
      ensures View(world) == nb
    {
      var currentVoxel := GetVoxel(x, y, z);
      assert cells(x, y, z) == ChunkCells(nb)(x, y, z);
      if currentVoxel.IsAir() {
        assert es + [] == es;
        return;
      }
      EmitFaces(x, y, z, currentVoxel.voxelType, world, mesh, nb, rule, origin, es);
    }

    /** The z loop, over the cells (x, y, 0) .. (x, y, 31). */
    method EmitColumn(x: int, y: int, world: map<ChunkPosition, Chunk>, mesh: ChunkMesh,
                      ghost nb: Neighborhood, ghost cells: CellKind, ghost rule: FaceRule, ghost origin: VoxelPosition)
      requires voxels.Length == Volume && |neighbors| == 6 && Sized(world) && nb == View(world)
      requires CellsAgree(nb, cells) && RuleAgrees(nb, rule) && origin == GetWorldPosition()
      requires 0 <= x < ChunkSize && 0 <= y < ChunkSize && mesh.Holds(FacesBefore(cells, rule, origin, x, y, 0))
      modifies mesh
      ensures mesh.Holds(FacesBefore(cells, rule, origin, x, y + 1, 0))
      ensures View(world) == nb
    {
      ghost var done := FacesBefore(cells, rule, origin, x, y, 0);
      var z := 0;
      while z < ChunkSize
        invariant 0 <= z <= ChunkSize
        invariant mesh.Holds(done) && done == FacesBefore(cells, rule, origin, x, y, z)
        invariant nb == View(world)
        modifies mesh
      {
        EmitCell(x, y, z, world, mesh, nb, cells, rule, origin, done);
        done := done + CellFaces(cells, rule, origin, x, y, z);
        z := z + 1;
      }
    }

    /** The y loop, over the columns (x, 0) .. (x, 31). */
    method EmitSlice(x: int, world: map<ChunkPosition, Chunk>, mesh: ChunkMesh,
                     ghost nb: Neighborhood, ghost cells: CellKind, ghost rule: FaceRule, ghost origin: VoxelPosition)
      requires voxels.Length == Volume && |neighbors| == 6 && Sized(world) && nb == View(world)
      requires CellsAgree(nb, cells) && RuleAgrees(nb, rule) && origin == GetWorldPosition()
      requires 0 <= x < ChunkSize && mesh.Holds(FacesBefore(cells, rule, origin, x, 0, 0))
      modifies mesh
      ensures mesh.Holds(FacesBefore(cells, rule, origin, x + 1, 0, 0))
      ensures View(world) == nb
    {
      var y := 0;
      while y < ChunkSize
        invariant 0 <= y <= ChunkSize
        invariant mesh.Holds(FacesBefore(cells, rule, origin, x, y, 0))
        invariant nb == View(world)
        modifies mesh
      {
        EmitColumn(x, y, world, mesh, nb, cells, rule, origin);
        y := y + 1;
      }
    }

    /** The x loop, over the slices 0 .. 31, with the chunk's own grid and
        culling rule. */
    method EmitMesh(world: map<ChunkPosition, Chunk>, mesh: ChunkMesh, ghost nb: Neighborhood)
      requires voxels.Length == Volume && |neighbors| == 6 && Sized(world) && nb == View(world)
      requires mesh.Holds([])
      modifies mesh
      ensures mesh.Holds(GeneratedFaces(nb, GetWorldPosition()))
      ensures View(world) == nb
    {
      ghost var cells, rule, origin := ChunkCells(nb), ChunkRule(nb), GetWorldPosition();
      var x := 0;
      while x < ChunkSize
        invariant 0 <= x <= ChunkSize
        invariant mesh.Holds(FacesBefore(cells, rule, origin, x, 0, 0))
        invariant nb == View(world)
        modifies mesh
      {
        EmitSlice(x, world, mesh, nb, cells, rule, origin);
        x := x + 1;
      }
    }

    /** Builds the chunk's mesh: an empty chunk gives an empty mesh and stays
        dirty; otherwise every visible face of every non-air voxel is added,
        x slowest and face fastest, and the chunk is marked clean. */
    method GenerateMesh(world: map<ChunkPosition, Chunk>) returns (mesh: ChunkMesh)
      requires Valid() && Sized(world)
      modifies this
      ensures fresh(mesh) && Valid()
      ensures mesh.Holds(GeneratedFaces(old(View(world)), GetWorldPosition()))
      ensures isDirty == (old(isDirty) && isEmpty)
      ensures neighbors == old(neighbors) && isEmpty == old(isEmpty) && isModified == old(isModified)
    {
      mesh := new ChunkMesh();
      var empty := IsEmpty();
      if empty {
        AllAirEmitsNothing(View(world), GetWorldPosition());
        return;
      }
      EmitMesh(world, mesh, View(world));
      SetDirty(false);
    }
  }
}
