/**
 * The chunk manager (pkg/chunk/chunk_manager.go): the loaded chunks keyed by
 * position, creation on demand with two-way neighbour wiring, unloading with
 * the back-links cut, voxel access in global coordinates, and the queries
 * over the loaded chunks.
 *
 * A neighbour slot holds the neighbour's position; the manager keeps every
 * slot of every loaded chunk pointing at exactly the loaded chunk one step
 * through that face (Wired).
 */
module ChunkManagers {
  import opened Options
  import opened Voxels
  import opened ChunkPositions
  import opened ChunkGrid
  import opened Chunks

  /** The face on the other side of the cube; any other value is returned
      unchanged. */
  function GetOppositeFace(face: VoxelFace): (r: VoxelFace)
    ensures IsFace(face) ==> IsFace(r) && r != face
    ensures !IsFace(face) ==> r == face
  {
    if face == Top then Bottom
    else if face == Bottom then Top
    else if face == Left then Right
    else if face == Right then Left
    else if face == Front then Back
    else if face == Back then Front
    else face
  }

  /** The opposite face steps the other way along the same axis. */
  lemma {:induction false} OppositeOffset(face: VoxelFace)
    requires IsFace(face)
    ensures var o := GetFaceOffset(face); GetFaceOffset(GetOppositeFace(face)) == VoxelPosition(-o.x, -o.y, -o.z)
  {
    assert GetFaceOffset(Top) == VoxelPosition(0, 1, 0);
    assert GetFaceOffset(Bottom) == VoxelPosition(0, -1, 0);
    assert GetFaceOffset(Left) == VoxelPosition(-1, 0, 0);
    assert GetFaceOffset(Right) == VoxelPosition(1, 0, 0);
    assert GetFaceOffset(Front) == VoxelPosition(0, 0, 1);
    assert GetFaceOffset(Back) == VoxelPosition(0, 0, -1);
  }

  /** Taking the opposite face twice gives the face back. */
  lemma {:induction false} OppositeIsInvolution(face: VoxelFace)
    ensures GetOppositeFace(GetOppositeFace(face)) == face
  {
    if IsFace(face) {
      OppositeOffset(face);
      OppositeOffset(GetOppositeFace(face));
      FaceOffsetInjective(GetOppositeFace(GetOppositeFace(face)), face);
    }
  }

  /** Stepping to a neighbour and back through the opposite face returns to
      the start; so the chunk one step through f sees the start through the
      opposite face, and only there. */
  lemma {:induction false} NeighborRoundTrip(p: ChunkPosition, face: VoxelFace)
    requires IsFace(face)
    ensures p.GetNeighborPosition(face).GetNeighborPosition(GetOppositeFace(face)) == p
    ensures forall q: ChunkPosition :: q.GetNeighborPosition(GetOppositeFace(face)) == p ==> q == p.GetNeighborPosition(face)
  {
    OppositeOffset(face);
    var o' := GetFaceOffset(GetOppositeFace(face));
    forall q: ChunkPosition | q.GetNeighborPosition(GetOppositeFace(face)) == p
      ensures q == p.GetNeighborPosition(face)
    {
      assert q == ChunkPosition(p.x - o'.x, p.y - o'.y, p.z - o'.z);
    }
  }

  /** The positions one step from pos through the faces below k. */
  function Around(pos: ChunkPosition, k: int): (s: set<ChunkPosition>)
    requires k <= 6
    ensures forall q :: q in s ==> pos.Distance(q) == 1
  {
    if k <= 0 then {} else Around(pos, k - 1) + {pos.GetNeighborPosition((k - 1) as VoxelFace)}
  }

  /** Through the six faces, the positions around pos are exactly those at
      distance one. */
  lemma {:induction false} AroundIsDistanceOne(pos: ChunkPosition, q: ChunkPosition)
    ensures q in Around(pos, 6) <==> pos.Distance(q) == 1
  {
    assert Around(pos, 1) == {pos.GetNeighborPosition(Top)};
    assert Around(pos, 2) == Around(pos, 1) + {pos.GetNeighborPosition(Bottom)};
    assert Around(pos, 3) == Around(pos, 2) + {pos.GetNeighborPosition(Left)};
    assert Around(pos, 4) == Around(pos, 3) + {pos.GetNeighborPosition(Right)};
    assert Around(pos, 5) == Around(pos, 4) + {pos.GetNeighborPosition(Front)};
    assert Around(pos, 6) == Around(pos, 5) + {pos.GetNeighborPosition(Back)};
    if pos.Distance(q) == 1 {
      var d := q.Sub(pos);
      var face := FaceCode(VoxelPosition(d.x, d.y, d.z));
      assert pos.GetNeighborPosition(face) == q;
    }
  }

  /** Where slot f of the chunk at p points once wiring is complete: at the
      position one step through f when it is loaded, else nowhere. */
  function Link(loaded: set<ChunkPosition>, p: ChunkPosition, f: VoxelFace): Option<ChunkPosition> {
    var q := p.GetNeighborPosition(f);
    if q in loaded then Some(q) else None
  }

  ghost function ChunkSet(world: map<ChunkPosition, Chunk>): set<object> {
    set p | p in world :: world[p] as object
  }

  /** Every object the manager's chunks are made of. */
  ghost function Objects(world: map<ChunkPosition, Chunk>): set<object> {
    ChunkSet(world) + WorldArrays(world)
  }

  /** Each chunk is stored under its own position and owns its array. */
  ghost predicate Keyed(world: map<ChunkPosition, Chunk>) {
    && Positioned(world)
    && (forall p, q {:trigger world[p].voxels, world[q].voxels} :: p in world && q in world && p != q ==> world[p].voxels != world[q].voxels)
  }

  /** Each chunk is stored under its own position. */
  ghost predicate Positioned(world: map<ChunkPosition, Chunk>) {
    forall p {:trigger world[p]} :: p in world ==> world[p].position == p
  }

  ghost predicate AllValid(world: map<ChunkPosition, Chunk>)
    reads Objects(world)
  {
    forall p {:trigger world[p]} :: p in world ==> world[p].Valid()
  }

  /** Every loaded chunk has its six neighbour slots. */
  ghost predicate SixSlots(world: map<ChunkPosition, Chunk>)
    reads ChunkSet(world)
  {
    forall p {:trigger world[p]} :: p in world ==> |world[p].neighbors| == 6
  }

  lemma {:induction false} ValidHasSixSlots(world: map<ChunkPosition, Chunk>)
    requires AllValid(world)
    ensures SixSlots(world)
  {
    forall p | p in world
      ensures |world[p].neighbors| == 6
    {
      assert world[p].Valid();
    }
  }

  /** Every slot of every loaded chunk points at the loaded chunk one step
      through it, or is empty when that position is not loaded. */
  ghost predicate Wired(world: map<ChunkPosition, Chunk>)
    reads ChunkSet(world)
  {
    forall p, f {:trigger SlotHolds(world, p, f, Link(world.Keys, p, f))} :: p in world && IsFace(f) ==>
      SlotHolds(world, p, f, Link(world.Keys, p, f))
  }

  /** Slot f of the loaded chunk at p holds `target`. */
  ghost predicate SlotHolds(world: map<ChunkPosition, Chunk>, p: ChunkPosition, f: VoxelFace, target: Option<ChunkPosition>)
    reads ChunkSet(world)
  {
    p in world && 0 <= f as int < |world[p].neighbors| && world[p].neighbors[f as int] == target
  }

  /** While the chunk at pos is being wired, face by face: the slots still
      to be written are its own slots from `face` on and, on each loaded
      chunk around it, the slot facing back at pos through those faces. */
  predicate Pending(pos: ChunkPosition, face: VoxelFace, p: ChunkPosition, f: VoxelFace) {
    || (p == pos && f >= face)
    || (p.GetNeighborPosition(f) == pos && GetOppositeFace(f) >= face)
  }

  /** Every slot is wired except the pending ones, which are still empty. */
  ghost predicate WiredFrom(world: map<ChunkPosition, Chunk>, pos: ChunkPosition, face: VoxelFace)
    reads ChunkSet(world)
  {
    forall p, f {:trigger SlotFrom(world, pos, face, p, f)} :: p in world && IsFace(f) ==> SlotFrom(world, pos, face, p, f)
  }

  /** Slot f of the chunk at p while the chunk at pos is being wired. */
  ghost predicate SlotFrom(world: map<ChunkPosition, Chunk>, pos: ChunkPosition, face: VoxelFace, p: ChunkPosition, f: VoxelFace)
    reads ChunkSet(world)
  {
    SlotHolds(world, p, f, if Pending(pos, face, p, f) then None else Link(world.Keys, p, f))
  }

  /** While the chunk at pos is being unloaded, face by face: the slots
      facing back at pos through the faces below `face` are already cut,
      every other slot is still wired. */
  ghost predicate CutBelow(world: map<ChunkPosition, Chunk>, pos: ChunkPosition, face: VoxelFace)
    reads ChunkSet(world)
  {
    forall p, f {:trigger SlotCut(world, pos, face, p, f)} :: p in world && IsFace(f) ==> SlotCut(world, pos, face, p, f)
  }

  /** Slot f of the chunk at p while the chunk at pos is being unloaded. */
  ghost predicate SlotCut(world: map<ChunkPosition, Chunk>, pos: ChunkPosition, face: VoxelFace, p: ChunkPosition, f: VoxelFace)
    reads ChunkSet(world)
  {
    SlotHolds(world, p, f, if p.GetNeighborPosition(f) == pos && GetOppositeFace(f) < face then None else Link(world.Keys, p, f))
  }

  /** Advancing the wiring past one face settles exactly two slots: the new
      chunk's slot on that face and the opposite slot of the chunk across
      it. */
  lemma {:induction false} PendingStep(pos: ChunkPosition, face: VoxelFace, p: ChunkPosition, f: VoxelFace)
    requires IsFace(face) && IsFace(f)
    ensures Pending(pos, face, p, f)
            == (|| Pending(pos, face + 1, p, f)
                || (p == pos && f == face)
                || (p == pos.GetNeighborPosition(face) && f == GetOppositeFace(face)))
  {
    NeighborRoundTrip(pos, face);
    OppositeIsInvolution(f);
    OppositeIsInvolution(face);
    if p.GetNeighborPosition(f) == pos && GetOppositeFace(f) == face {
      NeighborRoundTrip(p, f);
    }
  }

  /** Before unloading starts, no slot is cut yet. */
  lemma {:induction false} WiredIsCutFromTop(world: map<ChunkPosition, Chunk>, pos: ChunkPosition)
    requires Wired(world)
    ensures CutBelow(world, pos, Top)
  {
    forall p, f {:trigger SlotCut(world, pos, Top, p, f)} | p in world && IsFace(f)
      ensures SlotCut(world, pos, Top, p, f)
    {
      assert SlotHolds(world, p, f, Link(world.Keys, p, f));
    }
  }

  /** Once wiring has passed the last face nothing is pending. */
  lemma {:induction false} WiredFromComplete(world: map<ChunkPosition, Chunk>, pos: ChunkPosition)
    requires WiredFrom(world, pos, Back + 1)
    ensures Wired(world)
  {
    forall p, f {:trigger SlotHolds(world, p, f, Link(world.Keys, p, f))} | p in world && IsFace(f)
      ensures SlotHolds(world, p, f, Link(world.Keys, p, f))
    {
      assert SlotFrom(world, pos, Back + 1, p, f);
    }
  }

  /** Advancing the unloading past one face cuts exactly one more slot:
      the opposite slot of the chunk across that face. */
  lemma {:induction false} CutStep(pos: ChunkPosition, face: VoxelFace, p: ChunkPosition, f: VoxelFace)
    requires IsFace(face) && IsFace(f)
    ensures (p.GetNeighborPosition(f) == pos && GetOppositeFace(f) < face + 1)
            == (|| (p.GetNeighborPosition(f) == pos && GetOppositeFace(f) < face)
                || (p == pos.GetNeighborPosition(face) && f == GetOppositeFace(face)))
  {
    NeighborRoundTrip(pos, face);
    OppositeIsInvolution(f);
    OppositeIsInvolution(face);
    if p.GetNeighborPosition(f) == pos && GetOppositeFace(f) == face {
      NeighborRoundTrip(p, f);
    }
  }

  ghost function DirtySet(world: map<ChunkPosition, Chunk>): set<ChunkPosition>
    reads ChunkSet(world)
  {
    set p | p in world && world[p].isDirty
  }

  ghost function EmptySet(world: map<ChunkPosition, Chunk>): set<ChunkPosition>
    reads ChunkSet(world)
  {
    set p | p in world && world[p].isEmpty
  }

  ghost function ModifiedSet(world: map<ChunkPosition, Chunk>): set<ChunkPosition>
    reads ChunkSet(world)
  {
    set p | p in world && world[p].isModified
  }

  /** The loaded chunks whose mesh needs rebuilding: dirty and not empty. */
  ghost function ToRebuild(world: map<ChunkPosition, Chunk>): set<ChunkPosition>
    reads ChunkSet(world)
  {
    set p | p in world && world[p].isDirty && !world[p].isEmpty
  }

  /** The manager's invariant over its map and counters: chunks keyed by
      their position with arrays of their own, each chunk valid, every slot
      wired, and the loaded count equal to the number of loaded chunks and
      at most the number ever created. */
  ghost predicate Consistent(world: map<ChunkPosition, Chunk>, loaded: int, total: int)
    reads Objects(world)
  {
    && Keyed(world)
    && Sized(world)
    && AllValid(world)
    && Wired(world)
    && loaded == |world| <= total
  }

  /** The contents of a new chunk. */
  function AirGrid(): (g: seq<Voxel>)
    ensures |g| == Volume && AllAir(g)
  {
    seq(Volume, _ => Voxel(Air))
  }

  /** A global position is determined by its chunk and its local
      coordinate. */
  lemma {:induction false} SplitIsInjective(p: VoxelPosition, q: VoxelPosition)
    requires VoxelToChunkPosition(p) == VoxelToChunkPosition(q)
    requires VoxelToLocalPosition(p) == VoxelToLocalPosition(q)
    ensures p == q
  {
    ChunkLocalRoundTrip(p);
    ChunkLocalRoundTrip(q);
  }

  /** The chunks whose dirty flag a write at p raises: on every axis where
      the local coordinate is on the low or high edge, the chunk across that
      edge. */
  function Marked(p: VoxelPosition): set<ChunkPosition> {
    MarkedFrom(VoxelToChunkPosition(p), VoxelToLocalPosition(p))
  }

  /** Marked, for the voxel at local coordinate l of chunk c. */
  function MarkedFrom(c: ChunkPosition, l: (int, int, int)): set<ChunkPosition> {
    Across(l.0 == 0, c.GetNeighborPosition(Left))
    + Across(l.0 == ChunkSize - 1, c.GetNeighborPosition(Right))
    + Across(l.1 == 0, c.GetNeighborPosition(Bottom))
    + Across(l.1 == ChunkSize - 1, c.GetNeighborPosition(Top))
    + Across(l.2 == 0, c.GetNeighborPosition(Back))
    + Across(l.2 == ChunkSize - 1, c.GetNeighborPosition(Front))
  }

  /** The chunk across one edge, when the voxel lies on it. */
  function Across(onEdge: bool, q: ChunkPosition): set<ChunkPosition> {
    if onEdge then {q} else {}
  }

  /** The loaded chunks, keyed by their positions, measured against their
      dirty, empty and modified sets and their neighbour slots taken before
      a sequence of markings: only the dirty flag has changed, and it was
      raised exactly on the marked chunks. */
  ghost predicate RaisedOn(world: map<ChunkPosition, Chunk>, dirty: set<ChunkPosition>, empty: set<ChunkPosition>,
                           modified: set<ChunkPosition>, slots: map<ChunkPosition, seq<Option<ChunkPosition>>>,
                           marked: set<ChunkPosition>)
    reads ChunkSet(world)
  {
    forall p {:trigger world[p]} :: p in world ==>
      && world[p].position == p
      && world[p].isDirty == (p in dirty || p in marked)
      && world[p].isEmpty == (p in empty)
      && world[p].isModified == (p in modified)
      && p in slots && world[p].neighbors == slots[p]
  }

  /** One step from p through a face lands in p's own chunk unless p's local
      coordinate is on that face's edge, and then in the chunk across it. */
  lemma {:induction false} ChunkOfStep(p: VoxelPosition, face: VoxelFace)
    requires IsFace(face)
    ensures var c := VoxelToChunkPosition(p); var (x, y, z) := VoxelToLocalPosition(p);
            var onEdge := || (face == Left && x == 0) || (face == Right && x == ChunkSize - 1)
                           || (face == Bottom && y == 0) || (face == Top && y == ChunkSize - 1)
                           || (face == Back && z == 0) || (face == Front && z == ChunkSize - 1);
            VoxelToChunkPosition(p.Add(GetFaceOffset(face))) == if onEdge then c.GetNeighborPosition(face) else c
  {
    var c := VoxelToChunkPosition(p); var (x, y, z) := VoxelToLocalPosition(p);
    ChunkLocalRoundTrip(p);
    var o := GetFaceOffset(face);
    var q := p.Add(o);
    var lx := if x + o.x < 0 then ChunkSize - 1 else if x + o.x == ChunkSize then 0 else x + o.x;
    var ly := if y + o.y < 0 then ChunkSize - 1 else if y + o.y == ChunkSize then 0 else y + o.y;
    var lz := if z + o.z < 0 then ChunkSize - 1 else if z + o.z == ChunkSize then 0 else z + o.z;
    var cx := if x + o.x < 0 then c.x - 1 else if x + o.x == ChunkSize then c.x + 1 else c.x;
    var cy := if y + o.y < 0 then c.y - 1 else if y + o.y == ChunkSize then c.y + 1 else c.y;
    var cz := if z + o.z < 0 then c.z - 1 else if z + o.z == ChunkSize then c.z + 1 else c.z;
    ChunkLocalUnique(q, ChunkPosition(cx, cy, cz), lx, ly, lz);
  }

  /** The chunks a write at p marks are exactly the chunks, other than p's
      own, that hold one of p's six face neighbours. */
  lemma {:induction false} MarkedAreAcrossFaces(p: VoxelPosition, q: ChunkPosition)
    ensures q in Marked(p) <==>
            exists face :: IsFace(face) && q == VoxelToChunkPosition(p.Add(GetFaceOffset(face))) && q != VoxelToChunkPosition(p)
  {
    var c := VoxelToChunkPosition(p);
    forall face | IsFace(face)
      ensures VoxelToChunkPosition(p.Add(GetFaceOffset(face))) == q && q != c ==> q in Marked(p)
    {
      ChunkOfStep(p, face);
    }
    if q in Marked(p) {
      var (x, y, z) := VoxelToLocalPosition(p);
      var face :=
        if x == 0 && q == c.GetNeighborPosition(Left) then Left
        else if x == ChunkSize - 1 && q == c.GetNeighborPosition(Right) then Right
        else if y == 0 && q == c.GetNeighborPosition(Bottom) then Bottom
        else if y == ChunkSize - 1 && q == c.GetNeighborPosition(Top) then Top
        else if z == 0 && q == c.GetNeighborPosition(Back) then Back
        else Front;
      ChunkOfStep(p, face);
      assert c.Distance(q) == 1;
    }
  }

  /** A list of chunks drawn from a world map: exactly the chunks of the
      positions in `done`, each once, so as many as `done` has positions. */
  ghost predicate Collected(world: map<ChunkPosition, Chunk>, result: seq<Chunk>, done: set<ChunkPosition>) {
    CollectedExactly(world, result, done)
  }

  ghost predicate CollectedExactly(world: map<ChunkPosition, Chunk>, result: seq<Chunk>, done: set<ChunkPosition>) {
    && (forall i {:trigger result[i]} :: 0 <= i < |result| ==>
          result[i].position in done && result[i].position in world && world[result[i].position] == result[i])
    && (forall p {:trigger world[p]} :: p in done && p in world ==> world[p] in result)
    && (forall i, j {:trigger result[i], result[j]} :: 0 <= i < j < |result| ==> result[i] != result[j])
    && |result| == |done|
  }

  /** One step of a loop over a world map that keeps the chunks of the
      positions in `wanted`: visiting p, and appending its chunk exactly when
      p is wanted, extends the collection by p's share of `wanted`. */
  lemma {:induction false} Visit(world: map<ChunkPosition, Chunk>, wanted: set<ChunkPosition>, result: seq<Chunk>,
                                 todo: set<ChunkPosition>, p: ChunkPosition, take: bool)
    requires Positioned(world) && p in todo && todo <= world.Keys
    requires take <==> p in wanted
    requires Collected(world, result, wanted - todo)
    ensures Collected(world, if take then result + [world[p]] else result, wanted - (todo - {p}))
  {
    assert wanted - (todo - {p}) == (wanted - todo) + (if take then {p} else {});
  }

  /** One step of a counting loop: visiting p adds one to the count of the
      visited members of s exactly when p is in s. */
  lemma {:induction false} CountStep<T>(s: set<T>, todo: set<T>, p: T)
    requires p in todo
    ensures |s - (todo - {p})| == |s - todo| + if p in s then 1 else 0
  {
    if p in s {
      assert s - (todo - {p}) == (s - todo) + {p};
    } else {
      assert s - (todo - {p}) == s - todo;
    }
  }

  /** The state of GetStats' loop: the dirty and the empty chunks among the
      positions visited so far (those not in `todo`) are counted. */
  ghost predicate Tallied(world: map<ChunkPosition, Chunk>, todo: set<ChunkPosition>, dirty: int, empty: int)
    reads ChunkSet(world)
  {
    TalliedBoth(world, todo, dirty, empty)
  }

  ghost predicate TalliedBoth(world: map<ChunkPosition, Chunk>, todo: set<ChunkPosition>, dirty: int, empty: int)
    reads ChunkSet(world)
  {
    dirty == |DirtySet(world) - todo| && empty == |EmptySet(world) - todo|
  }

  /** Visiting p adds its flags to the tallies. */
  lemma {:induction false} Tally(world: map<ChunkPosition, Chunk>, todo: set<ChunkPosition>, p: ChunkPosition, dirty: int, empty: int)
    requires p in todo && todo <= world.Keys && Tallied(world, todo, dirty, empty)
    ensures Tallied(world, todo - {p}, dirty + (if world[p].isDirty then 1 else 0), empty + (if world[p].isEmpty then 1 else 0))
  {
    CountStep(DirtySet(world), todo, p);
    CountStep(EmptySet(world), todo, p);
  }

  /** The set GetDirtyChunks collects, read through the chunks' own
      queries: a loaded chunk is due exactly when it reports dirty and does
      not report empty. */
  lemma DueIffDirtyAndNotEmpty(world: map<ChunkPosition, Chunk>, p: ChunkPosition)
    requires p in world
    ensures p in ToRebuild(world) <==> world[p].IsDirty() && !world[p].IsEmpty()
  {
  }

  /** The chunks to rebuild are the dirty ones that are not empty, so there
      are never more of them than dirty chunks. */
  lemma {:induction false} RebuildIsDirtyMinusEmpty(world: map<ChunkPosition, Chunk>)
    ensures ToRebuild(world) == DirtySet(world) - EmptySet(world)
    ensures |ToRebuild(world)| <= |DirtySet(world)|
  {
    assert ToRebuild(world) == DirtySet(world) - EmptySet(world);
    assert ToRebuild(world) <= DirtySet(world);
    SubsetSize(ToRebuild(world), DirtySet(world));
  }

  lemma {:induction false} SubsetSize<T>(a: set<T>, b: set<T>)
    requires a <= b
    ensures |a| <= |b|
  {
    assert b == a + (b - a);
  }

  /** The tallies GetStats reports. */
  datatype ChunkManagerStats = ChunkManagerStats(totalChunks: int, loadedChunks: int, dirtyChunks: int, emptyChunks: int)

  class ChunkManager {
    var chunks: map<ChunkPosition, Chunk>
    var totalChunks: int
    var loadedChunks: int

    /** The manager's invariant: chunks keyed by their position with arrays
        of their own, each chunk valid, every slot wired, and the loaded
        count equal to the number of loaded chunks and at most the number
        ever created. */
    ghost predicate Valid()
      reads this, Objects(chunks)
    {
      Consistent(chunks, loadedChunks, totalChunks)
    }

    /** The voxel at a global position: its chunk's cell at its local
        coordinate, and air when that chunk is not loaded. */
    ghost function Read(p: VoxelPosition): Voxel
      requires Sized(chunks)
      reads this, WorldArrays(chunks)
    {
      var c := VoxelToChunkPosition(p);
      var (x, y, z) := VoxelToLocalPosition(p);
      if c in chunks then VoxelAt(chunks[c].voxels[..], x, y, z) else Voxel(Air)
    }

    /** A new manager has no chunks and zero counters. */
    constructor ()
      ensures Valid() && chunks == map[] && totalChunks == 0
    {
      chunks := map[];
      totalChunks := 0;
      loadedChunks := 0;
    }

    /** The chunk at pos, created when absent. An existing chunk is
        returned and nothing changes. A new chunk is all air, dirty, empty
        and unmodified, counted in both counters, and wired both ways to
        every loaded chunk around it; the wiring marks each of those dirty
        and changes nothing else about them. */
    method CreateChunk(pos: ChunkPosition) returns (chunk: Chunk)
      requires Valid()
      modifies this, Objects(chunks)
      ensures Valid()
      ensures chunks == old(chunks)[pos := chunk]
      ensures pos in old(chunks) ==> chunk == old(chunks[pos]) && unchanged(this) && unchanged(Objects(chunks))
      ensures forall q {:trigger Read(q)} :: Read(q) == old(Read(q))
      ensures pos !in old(chunks) ==>
                && fresh(chunk) && fresh(chunk.voxels)
                && totalChunks == old(totalChunks) + 1 && loadedChunks == old(loadedChunks) + 1
                && chunk.voxels[..] == AirGrid() && chunk.isDirty && chunk.isEmpty && !chunk.isModified
      ensures forall p {:trigger chunks[p]} :: p in old(chunks) ==>
                && chunks[p].isEmpty == old(chunks[p].isEmpty)
                && chunks[p].isModified == old(chunks[p].isModified)
                && chunks[p].isDirty == (old(chunks[p].isDirty) || (pos !in old(chunks) && p in Around(pos, 6)))
    {
      if pos in chunks {
        chunk := chunks[pos];
      } else {
        chunk := LoadChunk(pos);
      }
    }

    /** CreateChunk for a position that is not loaded: a new chunk is
        stored and counted, then wired to its loaded neighbours. */
    method LoadChunk(pos: ChunkPosition) returns (chunk: Chunk)
      requires Valid() && pos !in chunks
      modifies this, Objects(chunks)
      ensures Valid()
      ensures chunks == old(chunks)[pos := chunk]
      ensures forall q {:trigger Read(q)} :: Read(q) == old(Read(q))
      ensures fresh(chunk) && fresh(chunk.voxels)
      ensures totalChunks == old(totalChunks) + 1 && loadedChunks == old(loadedChunks) + 1
      ensures chunk.voxels[..] == AirGrid() && chunk.isDirty && chunk.isEmpty && !chunk.isModified
      ensures forall p {:trigger chunks[p]} :: p in old(chunks) ==>
                && chunks[p].isEmpty == old(chunks[p].isEmpty)
                && chunks[p].isModified == old(chunks[p].isModified)
                && chunks[p].isDirty == (old(chunks[p].isDirty) || p in Around(pos, 6))
    {
      chunk := InsertChunk(pos);
      ValidHasSixSlots(chunks);
      label inserted:
      SetupNeighbors(chunk);
      forall p | p in chunks
        ensures chunks[p].Valid()
      {
        assert old@inserted(chunks[p].Valid());
      }
    }

    /** The first half of CreateChunk: a new chunk stored under pos and
        counted, its neighbourhood not wired yet. */
    method InsertChunk(pos: ChunkPosition) returns (chunk: Chunk)
      requires Valid() && pos !in chunks
      modifies this
      ensures chunks == old(chunks)[pos := chunk]
      ensures fresh(chunk) && fresh(chunk.voxels) && chunk.position == pos
      ensures totalChunks == old(totalChunks) + 1 && loadedChunks == old(loadedChunks) + 1
      ensures loadedChunks == |chunks| <= totalChunks
      ensures Keyed(chunks) && Sized(chunks) && AllValid(chunks) && WiredFrom(chunks, pos, Top)
      ensures chunk.voxels[..] == AirGrid() && chunk.isDirty && chunk.isEmpty && !chunk.isModified
      ensures forall q {:trigger Read(q)} :: Read(q) == old(Read(q))
    {
      chunk := new Chunk(pos);
      assert chunk.voxels[..] == AirGrid();
      chunks, totalChunks, loadedChunks := chunks[pos := chunk], totalChunks + 1, loadedChunks + 1;
      forall q
        ensures Read(q) == old(Read(q))
      {
        if VoxelToChunkPosition(q) == pos {
          var (x, y, z) := VoxelToLocalPosition(q);
          assert VoxelAt(chunk.voxels[..], x, y, z).IsAir();
        }
      }
      forall p, f {:trigger SlotFrom(chunks, pos, Top, p, f)} | p in chunks && IsFace(f)
        ensures SlotFrom(chunks, pos, Top, p, f)
      {
        if p != pos {
          assert old(SlotHolds(chunks, p, f, Link(chunks.Keys, p, f)));
        }
      }
      forall p | p in chunks
        ensures chunks[p].Valid()
      {
        if p != pos {
          assert old(chunks[p].Valid());
        }
      }
    }

    /** Wires the chunk just inserted at its position: for every face whose
        neighbouring position is loaded, the chunk's slot and the
        neighbour's opposite slot are pointed at each other. */
    method SetupNeighbors(chunk: Chunk)
      requires Positioned(chunks) && Sized(chunks) && SixSlots(chunks)
      requires chunk.position in chunks && chunks[chunk.position] == chunk && chunk.isDirty
      requires WiredFrom(chunks, chunk.position, Top)
      modifies ChunkSet(chunks)
      ensures Wired(chunks) && SixSlots(chunks) && chunk.isDirty
      ensures forall q {:trigger Read(q)} :: Read(q) == old(Read(q))
      ensures forall p {:trigger chunks[p]} :: p in chunks ==>
                && chunks[p].isEmpty == old(chunks[p].isEmpty)
                && chunks[p].isModified == old(chunks[p].isModified)
                && chunks[p].isDirty == (old(chunks[p].isDirty) || p in Around(chunk.position, 6))
    {
      var pos := chunk.position;
      var face := Top;
      while face <= Back
        invariant Top <= face <= Back + 1
        invariant SixSlots(chunks) && chunk.isDirty
        invariant WiredFrom(chunks, pos, face)
        invariant forall p {:trigger chunks[p]} :: p in chunks ==>
                    && chunks[p].isEmpty == old(chunks[p].isEmpty)
                    && chunks[p].isModified == old(chunks[p].isModified)
                    && chunks[p].isDirty == (old(chunks[p].isDirty) || p in Around(pos, face as int))
      {
        WireFace(chunk, face);
        assert Around(pos, face as int + 1) == Around(pos, face as int) + {pos.GetNeighborPosition(face)};
        face := face + 1;
      }
      WiredFromComplete(chunks, pos);
      forall q
        ensures Read(q) == old(Read(q))
      {
        var c := VoxelToChunkPosition(q);
        if c in chunks {
          assert chunks[c].voxels[..] == old(chunks[c].voxels[..]);
        }
      }
    }

    /** One pass of SetupNeighbors' loop: when the position across `face`
        is loaded, point the chunk's slot at it and its opposite slot back. */
    method WireFace(chunk: Chunk, face: VoxelFace)
      requires Positioned(chunks) && SixSlots(chunks) && IsFace(face)
      requires chunk.position in chunks && chunks[chunk.position] == chunk && chunk.isDirty
      requires WiredFrom(chunks, chunk.position, face)
      modifies ChunkSet(chunks)
      ensures SixSlots(chunks) && chunk.isDirty
      ensures WiredFrom(chunks, chunk.position, face + 1)
      ensures forall p {:trigger chunks[p]} :: p in chunks ==>
                && chunks[p].isEmpty == old(chunks[p].isEmpty)
                && chunks[p].isModified == old(chunks[p].isModified)
                && chunks[p].isDirty == (old(chunks[p].isDirty) || p == chunk.position.GetNeighborPosition(face))
    {
      var pos := chunk.position;
      var neighborPos := pos.GetNeighborPosition(face);
      if neighborPos in chunks {
        var neighbor := chunks[neighborPos];
        chunk.SetNeighbor(face, Some(neighborPos));
        var oppositeFace := GetOppositeFace(face);
        NeighborRoundTrip(pos, face);
        neighbor.SetNeighbor(oppositeFace, Some(pos));
        forall p, f {:trigger SlotFrom(chunks, pos, face + 1, p, f)} | p in chunks && IsFace(f)
          ensures SlotFrom(chunks, pos, face + 1, p, f)
        {
          PendingStep(pos, face, p, f);
          assert old(SlotFrom(chunks, pos, face, p, f));
          if p != pos && p != neighborPos {
            assert chunks[p].neighbors == old(chunks[p].neighbors);
          } else if p == pos && f != face {
            assert chunk.neighbors[f as int] == old(chunk.neighbors[f as int]);
          } else if p == neighborPos && f != oppositeFace {
            assert neighbor.neighbors[f as int] == old(neighbor.neighbors[f as int]);
          }
        }
        assert WiredFrom(chunks, pos, face + 1);
        forall p | p in chunks
          ensures |chunks[p].neighbors| == 6
          ensures chunks[p].isEmpty == old(chunks[p].isEmpty) && chunks[p].isModified == old(chunks[p].isModified)
          ensures chunks[p].isDirty == (old(chunks[p].isDirty) || p == neighborPos)
        {
          assert old(|chunks[p].neighbors|) == 6;
          if p != pos && p != neighborPos {
            assert chunks[p].position == p;
          }
        }
      } else {
        forall p, f {:trigger SlotFrom(chunks, pos, face + 1, p, f)} | p in chunks && IsFace(f)
          ensures SlotFrom(chunks, pos, face + 1, p, f)
        {
          PendingStep(pos, face, p, f);
          assert SlotFrom(chunks, pos, face, p, f);
        }
        assert WiredFrom(chunks, pos, face + 1);
      }
    }

    /** Unloads the chunk at pos, if loaded: every loaded chunk around it
        has its slot facing back cut (which marks it dirty), and the chunk
        leaves the map and the loaded count. Nothing happens when pos is
        not loaded. */
    method UnloadChunk(pos: ChunkPosition)
      requires Valid()
      modifies this, ChunkSet(chunks)
      ensures Valid()
      ensures chunks == old(chunks) - {pos}
      ensures totalChunks == old(totalChunks)
      ensures loadedChunks == old(loadedChunks) - (if pos in old(chunks) then 1 else 0)
      ensures pos !in old(chunks) ==> unchanged(this) && unchanged(ChunkSet(chunks))
      ensures forall p {:trigger chunks[p]} :: p in chunks ==>
                && chunks[p].isEmpty == old(chunks[p].isEmpty)
                && chunks[p].isModified == old(chunks[p].isModified)
                && chunks[p].isDirty == (old(chunks[p].isDirty) || (pos in old(chunks) && p in Around(pos, 6)))
    {
      if pos in chunks {
        var chunk := chunks[pos];
        ValidHasSixSlots(chunks);
        CutNeighbors(chunk);
        forall p | p in chunks
          ensures chunks[p].Valid()
        {
          assert old(chunks[p].Valid());
        }
        RemoveChunk(pos);
      } else {
        assert chunks - {pos} == chunks;
      }
    }

    /** The last step of UnloadChunk: once every slot facing back at pos is
        cut, the chunk at pos leaves the map and the loaded count, and every
        remaining slot is wired again. */
    method RemoveChunk(pos: ChunkPosition)
      requires pos in chunks && Keyed(chunks) && Sized(chunks) && AllValid(chunks)
      requires CutBelow(chunks, pos, Back + 1)
      requires loadedChunks == |chunks| <= totalChunks
      modifies this
      ensures Valid()
      ensures chunks == old(chunks) - {pos}
      ensures totalChunks == old(totalChunks) && loadedChunks == old(loadedChunks) - 1
    {
      chunks := chunks - {pos};
      loadedChunks := loadedChunks - 1;
      forall p, f {:trigger SlotHolds(chunks, p, f, Link(chunks.Keys, p, f))} | p in chunks && IsFace(f)
        ensures SlotHolds(chunks, p, f, Link(chunks.Keys, p, f))
      {
        assert old(SlotCut(chunks, pos, Back + 1, p, f));
        if p.GetNeighborPosition(f) == pos {
          OppositeIsInvolution(f);
        }
      }
      forall p | p in chunks
        ensures chunks[p].Valid()
      {
        assert old(chunks[p].Valid());
      }
    }

    /** The loop of UnloadChunk: for every face, the loaded chunk the
        unloaded chunk's slot points at gets its opposite slot emptied. */
    method CutNeighbors(chunk: Chunk)
      requires Positioned(chunks) && SixSlots(chunks) && Wired(chunks)
      requires chunk.position in chunks && chunks[chunk.position] == chunk
      modifies ChunkSet(chunks)
      ensures SixSlots(chunks) && CutBelow(chunks, chunk.position, Back + 1)
      ensures forall p {:trigger chunks[p]} :: p in chunks ==>
                && chunks[p].isEmpty == old(chunks[p].isEmpty)
                && chunks[p].isModified == old(chunks[p].isModified)
                && chunks[p].isDirty == (old(chunks[p].isDirty) || p in Around(chunk.position, 6))
    {
      var pos := chunk.position;
      WiredIsCutFromTop(chunks, pos);
      var face := Top;
      while face <= Back
        invariant Top <= face <= Back + 1
        invariant SixSlots(chunks)
        invariant CutBelow(chunks, pos, face)
        invariant forall p {:trigger chunks[p]} :: p in chunks ==>
                    && chunks[p].isEmpty == old(chunks[p].isEmpty)
                    && chunks[p].isModified == old(chunks[p].isModified)
                    && chunks[p].isDirty == (old(chunks[p].isDirty) || p in Around(pos, face as int))
      {
        CutFace(chunk, face);
        assert Around(pos, face as int + 1) == Around(pos, face as int) + {pos.GetNeighborPosition(face)};
        face := face + 1;
      }
    }

    /** One pass of UnloadChunk's loop: when the unloaded chunk's slot on
        `face` points at a loaded chunk, that chunk's opposite slot is
        emptied. */
    method CutFace(chunk: Chunk, face: VoxelFace)
      requires Positioned(chunks) && SixSlots(chunks) && IsFace(face)
      requires chunk.position in chunks && chunks[chunk.position] == chunk
      requires CutBelow(chunks, chunk.position, face)
      modifies ChunkSet(chunks)
      ensures SixSlots(chunks) && CutBelow(chunks, chunk.position, face + 1)
      ensures forall p {:trigger chunks[p]} :: p in chunks ==>
                && chunks[p].isEmpty == old(chunks[p].isEmpty)
                && chunks[p].isModified == old(chunks[p].isModified)
                && chunks[p].isDirty == (old(chunks[p].isDirty) || p == chunk.position.GetNeighborPosition(face))
    {
      var pos := chunk.position;
      assert SlotCut(chunks, pos, face, pos, face);
      var neighbor := chunk.GetNeighbor(face);
      if neighbor.Some? {
        var neighborPos := neighbor.value;
        var neighborChunk := chunks[neighborPos];
        var oppositeFace := GetOppositeFace(face);
        NeighborRoundTrip(pos, face);
        neighborChunk.SetNeighbor(oppositeFace, None);
        forall p, f {:trigger SlotCut(chunks, pos, face + 1, p, f)} | p in chunks && IsFace(f)
          ensures SlotCut(chunks, pos, face + 1, p, f)
        {
          CutStep(pos, face, p, f);
          assert old(SlotCut(chunks, pos, face, p, f));
          if p != neighborPos {
            assert chunks[p].neighbors == old(chunks[p].neighbors);
          } else if f != oppositeFace {
            assert neighborChunk.neighbors[f as int] == old(neighborChunk.neighbors[f as int]);
          }
        }
        forall p | p in chunks
          ensures |chunks[p].neighbors| == 6
          ensures chunks[p].isEmpty == old(chunks[p].isEmpty) && chunks[p].isModified == old(chunks[p].isModified)
          ensures chunks[p].isDirty == (old(chunks[p].isDirty) || p == neighborPos)
        {
          assert old(|chunks[p].neighbors|) == 6;
          if p != neighborPos {
            assert chunks[p].position == p;
          }
        }
      } else {
        forall p, f {:trigger SlotCut(chunks, pos, face + 1, p, f)} | p in chunks && IsFace(f)
          ensures SlotCut(chunks, pos, face + 1, p, f)
        {
          CutStep(pos, face, p, f);
          assert SlotCut(chunks, pos, face, p, f);
        }
      }
    }

    /** The chunk at a position, created when absent, exactly as
        CreateChunk. */
    method GetChunk(pos: ChunkPosition) returns (chunk: Chunk)
      requires Valid()
      modifies this, Objects(chunks)
      ensures Valid()
      ensures chunks == old(chunks)[pos := chunk]
      ensures pos in old(chunks) ==> chunk == old(chunks[pos]) && unchanged(this) && unchanged(Objects(chunks))
      ensures forall q {:trigger Read(q)} :: Read(q) == old(Read(q))
      ensures pos !in old(chunks) ==>
                && fresh(chunk) && fresh(chunk.voxels)
                && totalChunks == old(totalChunks) + 1 && loadedChunks == old(loadedChunks) + 1
                && chunk.voxels[..] == AirGrid() && chunk.isDirty && chunk.isEmpty && !chunk.isModified
      ensures forall p {:trigger chunks[p]} :: p in old(chunks) ==>
                && chunks[p].isEmpty == old(chunks[p].isEmpty)
                && chunks[p].isModified == old(chunks[p].isModified)
                && chunks[p].isDirty == (old(chunks[p].isDirty) || (pos !in old(chunks) && p in Around(pos, 6)))
    {
      if pos in chunks {
        chunk := chunks[pos];
      } else {
        chunk := CreateChunk(pos);
      }
    }

    /** The voxel at a global position, read from its chunk at its local
        coordinate; the chunk is created (all air) when it is not loaded, so
        the voxel read is what the position held before, and no position
        reads differently afterwards. */
    method GetVoxel(voxelPos: VoxelPosition) returns (v: Voxel)
      requires Valid()
      modifies this, Objects(chunks)
      ensures Valid()
      ensures v == old(Read(voxelPos))
      ensures forall q {:trigger Read(q)} :: Read(q) == old(Read(q))
      ensures VoxelToChunkPosition(voxelPos) in chunks
      ensures chunks == old(chunks)[VoxelToChunkPosition(voxelPos) := chunks[VoxelToChunkPosition(voxelPos)]]
      ensures totalChunks == old(totalChunks) + if VoxelToChunkPosition(voxelPos) in old(chunks) then 0 else 1
      ensures forall p {:trigger chunks[p]} :: p in old(chunks) ==>
                && chunks[p].isEmpty == old(chunks[p].isEmpty)
                && chunks[p].isModified == old(chunks[p].isModified)
                && chunks[p].isDirty == (old(chunks[p].isDirty) || (VoxelToChunkPosition(voxelPos) !in old(chunks) && p in Around(VoxelToChunkPosition(voxelPos), 6)))
    {
      var chunkPos := VoxelToChunkPosition(voxelPos);
      var chunk := GetChunk(chunkPos);
      var (x, y, z) := VoxelToLocalPosition(voxelPos);
      v := chunk.GetVoxel(x, y, z);
    }

    /** Stores v at a global position: the chunk holding it is created when
        absent, the voxel is written at its local coordinate, and every
        loaded chunk across an edge the voxel lies on is marked dirty. The
        position then reads v and no other position reads differently. */
    method SetVoxel(voxelPos: VoxelPosition, v: Voxel)
      requires Valid()
      modifies this, Objects(chunks)
      ensures Valid()
      ensures Read(voxelPos) == v
      ensures forall q {:trigger Read(q)} :: q != voxelPos ==> Read(q) == old(Read(q))
      ensures VoxelToChunkPosition(voxelPos) in chunks
      ensures chunks == old(chunks)[VoxelToChunkPosition(voxelPos) := chunks[VoxelToChunkPosition(voxelPos)]]
      ensures totalChunks == old(totalChunks) + if VoxelToChunkPosition(voxelPos) in old(chunks) then 0 else 1
      ensures var c := VoxelToChunkPosition(voxelPos);
              var changed := old(Read(voxelPos)) != v;
              && chunks[c].isDirty == (c !in old(chunks) || old(chunks[c].isDirty) || changed)
              && chunks[c].isModified == ((c in old(chunks) && old(chunks[c].isModified)) || changed)
      ensures forall p {:trigger chunks[p]} :: p in old(chunks) && p != VoxelToChunkPosition(voxelPos) ==>
                && chunks[p].isEmpty == old(chunks[p].isEmpty)
                && chunks[p].isModified == old(chunks[p].isModified)
                && chunks[p].isDirty == (|| old(chunks[p].isDirty) || p in Marked(voxelPos)
                                         || (VoxelToChunkPosition(voxelPos) !in old(chunks) && p in Around(VoxelToChunkPosition(voxelPos), 6)))
    {
      var chunkPos := VoxelToChunkPosition(voxelPos);
      var chunk := GetChunk(chunkPos);
      label created:
      WriteVoxel(chunk, voxelPos, v);
    }

    /** SetVoxel once the chunk holding voxelPos is loaded: the write, then
        the marking of the chunks across the edges the voxel lies on. */
    method WriteVoxel(chunk: Chunk, voxelPos: VoxelPosition, v: Voxel)
      requires Valid()
      requires VoxelToChunkPosition(voxelPos) in chunks && chunks[VoxelToChunkPosition(voxelPos)] == chunk
      modifies ChunkSet(chunks), chunk.voxels
      ensures Valid() && unchanged(this)
      ensures Read(voxelPos) == v
      ensures forall q {:trigger Read(q)} :: q != voxelPos ==> Read(q) == old(Read(q))
      ensures chunk.isDirty == (old(chunk.isDirty) || old(Read(voxelPos)) != v)
      ensures chunk.isModified == (old(chunk.isModified) || old(Read(voxelPos)) != v)
      ensures forall p {:trigger chunks[p]} :: p in chunks && p != VoxelToChunkPosition(voxelPos) ==>
                && chunks[p].isEmpty == old(chunks[p].isEmpty)
                && chunks[p].isModified == old(chunks[p].isModified)
                && chunks[p].isDirty == (old(chunks[p].isDirty) || p in Marked(voxelPos))
    {
      var chunkPos := VoxelToChunkPosition(voxelPos);
      StoreVoxel(chunk, voxelPos, v);
      label stored:
      MarkAdjacentChunksDirty(voxelPos);
      assert chunkPos !in Marked(voxelPos) by {
        MarkedAreAcrossFaces(voxelPos, chunkPos);
      }
      forall p | p in chunks && p != chunkPos
        ensures chunks[p].isEmpty == old(chunks[p].isEmpty) && chunks[p].isModified == old(chunks[p].isModified)
        ensures chunks[p].isDirty == (old(chunks[p].isDirty) || p in Marked(voxelPos))
      {
        assert chunks[p].position == p;
      }
    }

    /** The write of SetVoxel: the chunk holding voxelPos stores v at the
        local coordinate; the position reads v, no other position reads
        differently, and the chunk is marked dirty and modified when the
        stored voxel changed. */
    method StoreVoxel(chunk: Chunk, voxelPos: VoxelPosition, v: Voxel)
      requires Valid()
      requires VoxelToChunkPosition(voxelPos) in chunks && chunks[VoxelToChunkPosition(voxelPos)] == chunk
      modifies chunk, chunk.voxels
      ensures Valid()
      ensures Read(voxelPos) == v
      ensures forall q {:trigger Read(q)} :: q != voxelPos ==> Read(q) == old(Read(q))
      ensures chunk.isDirty == (old(chunk.isDirty) || old(Read(voxelPos)) != v)
      ensures chunk.isModified == (old(chunk.isModified) || old(Read(voxelPos)) != v)
    {
      var chunkPos := VoxelToChunkPosition(voxelPos);
      var (x, y, z) := VoxelToLocalPosition(voxelPos);
      ChunkLocalRoundTrip(voxelPos);
      ghost var before := chunk.voxels[..];
      chunk.SetVoxel(x, y, z, v);
      forall p, f {:trigger SlotHolds(chunks, p, f, Link(chunks.Keys, p, f))} | p in chunks && IsFace(f)
        ensures SlotHolds(chunks, p, f, Link(chunks.Keys, p, f))
      {
        assert old(SlotHolds(chunks, p, f, Link(chunks.Keys, p, f)));
      }
      forall p | p in chunks
        ensures chunks[p].Valid()
      {
        if p != chunkPos {
          assert chunks[p].voxels != chunk.voxels;
          assert old(chunks[p].Valid());
        }
      }
      forall q | q != voxelPos
        ensures Read(q) == old(Read(q))
      {
        var c := VoxelToChunkPosition(q);
        var (qx, qy, qz) := VoxelToLocalPosition(q);
        if c == chunkPos {
          ReadAfterWrite(before, x, y, z, v, qx, qy, qz);
          if (qx, qy, qz) == (x, y, z) {
            SplitIsInjective(q, voxelPos);
          }
        } else if c in chunks {
          assert chunks[c].voxels != chunk.voxels;
        }
      }
    }

    /** Raises the dirty flag of every loaded chunk across an edge of its
        chunk that the voxel at voxelPos lies on (Marked); nothing else
        changes. */
    method MarkAdjacentChunksDirty(voxelPos: VoxelPosition)
      requires Positioned(chunks) && Sized(chunks)
      modifies ChunkSet(chunks)
      ensures unchanged(this)
      ensures forall q {:trigger Read(q)} :: Read(q) == old(Read(q))
      ensures old(AllValid(chunks)) ==> AllValid(chunks)
      ensures old(Wired(chunks)) ==> Wired(chunks)
      ensures forall p {:trigger chunks[p]} :: p in chunks ==>
                && chunks[p].isEmpty == old(chunks[p].isEmpty)
                && chunks[p].isModified == old(chunks[p].isModified)
                && chunks[p].isDirty == (old(chunks[p].isDirty) || p in Marked(voxelPos))
    {
      ghost var dirty, empty, modified := DirtySet(chunks), EmptySet(chunks), ModifiedSet(chunks);
      ghost var slots := map p | p in chunks :: chunks[p].neighbors;
      MarkAcrossEdges(voxelPos, dirty, empty, modified, slots);
      forall p | p in chunks && old(AllValid(chunks))
        ensures chunks[p].Valid()
      {
        assert old(chunks[p].Valid());
      }
      forall p, f {:trigger SlotHolds(chunks, p, f, Link(chunks.Keys, p, f))} | p in chunks && IsFace(f) && old(Wired(chunks))
        ensures SlotHolds(chunks, p, f, Link(chunks.Keys, p, f))
      {
        assert old(SlotHolds(chunks, p, f, Link(chunks.Keys, p, f)));
      }
    }

    /** The six edge tests of MarkAdjacentChunksDirty, measured against the
        flags and slots the chunks had before them. */
    method MarkAcrossEdges(voxelPos: VoxelPosition, ghost dirty: set<ChunkPosition>, ghost empty: set<ChunkPosition>,
                           ghost modified: set<ChunkPosition>, ghost slots: map<ChunkPosition, seq<Option<ChunkPosition>>>)
      requires RaisedOn(chunks, dirty, empty, modified, slots, {})
      modifies ChunkSet(chunks)
      ensures unchanged(this)
      ensures RaisedOn(chunks, dirty, empty, modified, slots, Marked(voxelPos))
    {
      var l := VoxelToLocalPosition(voxelPos);
      var chunkPos := VoxelToChunkPosition(voxelPos);
      ghost var marked: set<ChunkPosition> := {};
      MarkAcrossEdge(l.0 == 0, chunkPos.GetNeighborPosition(Left), dirty, empty, modified, slots, marked);
      marked := Across(l.0 == 0, chunkPos.GetNeighborPosition(Left));
      MarkAcrossEdge(l.0 == ChunkSize - 1, chunkPos.GetNeighborPosition(Right), dirty, empty, modified, slots, marked);
      marked := marked + Across(l.0 == ChunkSize - 1, chunkPos.GetNeighborPosition(Right));
      MarkAcrossEdge(l.1 == 0, chunkPos.GetNeighborPosition(Bottom), dirty, empty, modified, slots, marked);
      marked := marked + Across(l.1 == 0, chunkPos.GetNeighborPosition(Bottom));
      MarkAcrossEdge(l.1 == ChunkSize - 1, chunkPos.GetNeighborPosition(Top), dirty, empty, modified, slots, marked);
      marked := marked + Across(l.1 == ChunkSize - 1, chunkPos.GetNeighborPosition(Top));
      MarkAcrossEdge(l.2 == 0, chunkPos.GetNeighborPosition(Back), dirty, empty, modified, slots, marked);
      marked := marked + Across(l.2 == 0, chunkPos.GetNeighborPosition(Back));
      MarkAcrossEdge(l.2 == ChunkSize - 1, chunkPos.GetNeighborPosition(Front), dirty, empty, modified, slots, marked);
    }

    /** One `if` of MarkAdjacentChunksDirty: when the voxel is on the edge,
        the chunk loaded at pos, if any, is marked dirty; nothing else
        changes. */
    method MarkAcrossEdge(onEdge: bool, pos: ChunkPosition, ghost dirty: set<ChunkPosition>, ghost empty: set<ChunkPosition>,
                          ghost modified: set<ChunkPosition>, ghost slots: map<ChunkPosition, seq<Option<ChunkPosition>>>,
                          ghost marked: set<ChunkPosition>)
      requires RaisedOn(chunks, dirty, empty, modified, slots, marked)
      modifies ChunkSet(chunks)
      ensures unchanged(this)
      ensures RaisedOn(chunks, dirty, empty, modified, slots, marked + Across(onEdge, pos))
    {
      if onEdge {
        var neighbor := GetChunkIfExists(pos);
        if neighbor.Some? {
          neighbor.value.SetDirty(true);
        }
      }
      forall p | p in chunks
        ensures chunks[p].isDirty == (p in dirty || p in marked + Across(onEdge, pos))
        ensures chunks[p].isEmpty == (p in empty) && chunks[p].isModified == (p in modified)
        ensures p in slots && chunks[p].neighbors == slots[p]
      {
        assert old(chunks[p].isDirty == (p in dirty || p in marked));
        assert old(p in slots && chunks[p].neighbors == slots[p]);
      }
    }

    /** The chunks whose mesh needs rebuilding: every loaded chunk that is
        dirty and not empty, each exactly once, in an order left open (the
        map's iteration order). */
    method GetDirtyChunks() returns (dirty: seq<Chunk>)
      requires Positioned(chunks)
      ensures Collected(chunks, dirty, ToRebuild(chunks))
    {
      dirty := [];
      var todo := chunks.Keys;
      while todo != {}
        invariant todo <= chunks.Keys
        invariant Collected(chunks, dirty, ToRebuild(chunks) - todo)
        decreases |todo|
      {
        var p :| p in todo;
        var chunk := chunks[p];
        var take := chunk.IsDirty() && !chunk.IsEmpty();
        Visit(chunks, ToRebuild(chunks), dirty, todo, p, take);
        if take {
          dirty := dirty + [chunk];
        }
        todo := todo - {p};
      }
      assert ToRebuild(chunks) - todo == ToRebuild(chunks);
    }

    /** Every loaded chunk, each exactly once, in an order left open. */
    method GetLoadedChunks() returns (loaded: seq<Chunk>)
      requires Positioned(chunks)
      ensures Collected(chunks, loaded, chunks.Keys)
    {
      loaded := [];
      var todo := chunks.Keys;
      while todo != {}
        invariant todo <= chunks.Keys
        invariant Collected(chunks, loaded, chunks.Keys - todo)
        decreases |todo|
      {
        var p :| p in todo;
        Visit(chunks, chunks.Keys, loaded, todo, p, true);
        loaded := loaded + [chunks[p]];
        todo := todo - {p};
      }
      assert chunks.Keys - todo == chunks.Keys;
    }

    /** The counters as kept, with the number of dirty and of empty loaded
        chunks counted afresh. */
    method GetStats() returns (stats: ChunkManagerStats)
      ensures stats == ChunkManagerStats(totalChunks, loadedChunks, |DirtySet(chunks)|, |EmptySet(chunks)|)
    {
      var dirtyCount, emptyCount := 0, 0;
      var todo := chunks.Keys;
      while todo != {}
        invariant todo <= chunks.Keys
        invariant Tallied(chunks, todo, dirtyCount, emptyCount)
        decreases |todo|
      {
        var p :| p in todo;
        var chunk := chunks[p];
        Tally(chunks, todo, p, dirtyCount, emptyCount);
        if chunk.IsDirty() {
          dirtyCount := dirtyCount + 1;
        }
        if chunk.IsEmpty() {
          emptyCount := emptyCount + 1;
        }
        todo := todo - {p};
      }
      assert DirtySet(chunks) - {} == DirtySet(chunks) && EmptySet(chunks) - {} == EmptySet(chunks);
      stats := ChunkManagerStats(totalChunks, loadedChunks, dirtyCount, emptyCount);
    }

    /** The chunk at a position, if loaded; it never creates one. */
    method GetChunkIfExists(pos: ChunkPosition) returns (chunk: Option<Chunk>)
      ensures chunk.Some? <==> pos in chunks
      ensures chunk.Some? ==> chunk.value == chunks[pos]
    {
      if pos in chunks {
        chunk := Some(chunks[pos]);
      } else {
        chunk := None;
      }
    }
  }
}
