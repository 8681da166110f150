/**
 * The chunk renderer's mesh cache (pkg/graphics/chunk_renderer.go): a map
 * from chunk position to the chunk's uploaded mesh, rebuilt for dirty
 * chunks, dropped when a chunk's mesh comes out empty, and drawn with two
 * counters of what the last frame drew.
 *
 * The graphics API is reduced to its handle bookkeeping: a `Device` hands out
 * fresh non-zero handles and takes them back. What the buffers hold on the
 * device, the vertex layout and the draw calls themselves are not modelled.
 */
module ChunkRenderers {
  import opened Options
  import opened Voxels
  import opened ChunkGrid
  import opened ChunkPositions
  import opened ChunkMeshes
  import opened Chunks
  import opened ChunkManagers

  /** The graphics API's handle allocator: the set of handles currently
      allocated. 0 is never a handle. */
  class Device {
    var live: set<int>
    var next: int

    ghost predicate Valid()
      reads this
    {
      next > 0 && forall h :: h in live ==> 0 < h < next
    }

    constructor ()
      ensures Valid() && live == {}
    {
      live, next := {}, 1;
    }

    /** Allocates a handle: a non-zero one not currently allocated. */
    method Gen() returns (h: int)
      requires Valid()
      modifies this
      ensures Valid()
      ensures h != 0 && h !in old(live) && live == old(live) + {h}
    {
      h := next;
      live := live + {h};
      next := next + 1;
    }

    /** Releases a handle. */
    method Release(h: int)
      modifies this
      ensures live == old(live) - {h} && next == old(next)
      ensures old(Valid()) ==> Valid()
    {
      live := live - {h};
    }
  }

  /** The three handles of a mesh: vertex array, vertex buffer, index buffer. */
  ghost function Handles(m: ChunkMesh): set<int>
    reads m
  {
    {m.vao, m.vbo, m.ebo}
  }

  /** The handles of each of the meshes ms. */
  ghost function HandleMap(ms: set<ChunkMesh>): (hs: map<ChunkMesh, set<int>>)
    reads ms
    ensures hs.Keys == ms
  {
    map m | m in ms :: Handles(m)
  }

  /** All the handles the meshes ms hold. */
  function Union(hs: map<ChunkMesh, set<int>>, ms: set<ChunkMesh>): set<int> {
    set m, h | m in ms && m in hs && h in hs[m] :: h
  }

  /** No handle is held by two meshes. */
  predicate Unshared(hs: map<ChunkMesh, set<int>>) {
    forall m, n {:trigger hs[m], hs[n]} :: m in hs && n in hs && m != n ==> hs[m] !! hs[n]
  }

  /** Dropping one mesh drops exactly its handles, since no other mesh
      shares them. */
  lemma {:induction false} UnionRemove(hs: map<ChunkMesh, set<int>>, ms: set<ChunkMesh>, m: ChunkMesh)
    requires Unshared(hs) && m in ms && m in hs
    ensures Union(hs, ms - {m}) == Union(hs, ms) - hs[m]
    ensures hs[m] <= Union(hs, ms)
  {
    forall h | h in Union(hs, ms) - hs[m]
      ensures h in Union(hs, ms - {m})
    {
      var n :| n in ms && n in hs && h in hs[n];
    }
    forall h | h in hs[m]
      ensures h in Union(hs, ms)
    {
      assert m in ms && m in hs && h in hs[m];
    }
  }

  /** The mesh holds no handle. */
  ghost predicate Zeroed(m: ChunkMesh)
    reads m
  {
    m.vao == 0 && m.vbo == 0 && m.ebo == 0
  }

  /** Each of the meshes ms still holds the handles recorded in hs. */
  ghost predicate Intact(ms: set<ChunkMesh>, hs: map<ChunkMesh, set<int>>)
    reads ms
  {
    forall m :: m in ms ==> m in hs && Handles(m) == hs[m]
  }

  /** live is live0 with the handles of the meshes of hs released, except
      those of the meshes todo. */
  predicate Accounted(live0: set<int>, live: set<int>, hs: map<ChunkMesh, set<int>>, todo: set<ChunkMesh>) {
    live == live0 - Union(hs, hs.Keys) + Union(hs, todo)
  }

  /** Releasing the handles of one more mesh keeps the account. */
  lemma {:induction false} AccountStep(live0: set<int>, live: set<int>, live': set<int>, hs: map<ChunkMesh, set<int>>, todo: set<ChunkMesh>, m: ChunkMesh)
    requires Accounted(live0, live, hs, todo) && Unshared(hs)
    requires m in todo && todo <= hs.Keys && 0 !in live
    requires live' == live - (hs[m] - {0})
    ensures Accounted(live0, live', hs, todo - {m})
  {
    UnionRemove(hs, todo, m);
    UnionRemove(hs, hs.Keys, m);
  }

  /** Part way through releasing the meshes of hs: the meshes done hold no
      handle, the meshes todo still hold theirs, and the device has released
      exactly the handles of the meshes done. */
  ghost predicate Releasing(gpu: Device, todo: set<ChunkMesh>, done: set<ChunkMesh>, hs: map<ChunkMesh, set<int>>, live0: set<int>)
    reads gpu, todo, done
  {
    && todo !! done && todo <= hs.Keys && Unshared(hs) && gpu.Valid()
    && (forall m :: m in done ==> Zeroed(m))
    && Intact(todo, hs)
    && Accounted(live0, gpu.live, hs, todo)
  }

  /** No two positions of the map hold the same mesh, nor meshes sharing a
      handle. */
  ghost predicate Separate(ms: map<ChunkPosition, ChunkMesh>)
    reads ms.Values
  {
    forall p, q {:trigger ms[p], ms[q]} :: p in ms && q in ms && p != q ==> ms[p] != ms[q] && Handles(ms[p]) !! Handles(ms[q])
  }

  /** Seen as a set of meshes, a separate map whose meshes' handles are all
      live shares no handle, and all of its handles are live. */
  lemma {:induction false} SeparateValues(ms: map<ChunkPosition, ChunkMesh>, live: set<int>)
    requires Separate(ms)
    requires forall p {:trigger ms[p]} :: p in ms ==> Handles(ms[p]) <= live
    ensures Unshared(HandleMap(ms.Values))
    ensures Union(HandleMap(ms.Values), ms.Values) <= live
  {
    var hs := HandleMap(ms.Values);
    forall m, n | m in hs && n in hs && m != n
      ensures hs[m] !! hs[n]
    {
      var p :| p in ms && ms[p] == m;
      var q :| q in ms && ms[q] == n;
    }
    forall h | h in Union(hs, ms.Values)
      ensures h in live
    {
      var m :| m in ms.Values && m in hs && h in hs[m];
      var p :| p in ms && ms[p] == m;
    }
  }

  /** The two caches hold the same mesh, or none, at every position other
      than pos. */
  ghost predicate SameElsewhere(a: map<ChunkPosition, ChunkMesh>, b: map<ChunkPosition, ChunkMesh>, pos: ChunkPosition) {
    forall p :: p != pos ==> (p in a <==> p in b) && (p in a ==> a[p] == b[p])
  }

  /** The two caches hold the same mesh, or none, at every position
      outside ps. */
  ghost predicate SameOutside(a: map<ChunkPosition, ChunkMesh>, b: map<ChunkPosition, ChunkMesh>, ps: set<ChunkPosition>) {
    forall p :: p !in ps ==> (p in a <==> p in b) && (p in a ==> a[p] == b[p])
  }

  /** The positions of a list of chunks. */
  ghost function Positions(cs: seq<Chunk>): set<ChunkPosition> {
    set j | 0 <= j < |cs| :: cs[j].position
  }

  /** A list collected from a positioned world holds one chunk per
      collected position: its positions are exactly those, and no two of
      its chunks share one. */
  lemma {:induction false} CollectedPositions(world: map<ChunkPosition, Chunk>, cs: seq<Chunk>, ps: set<ChunkPosition>)
    requires Positioned(world) && ps <= world.Keys && Collected(world, cs, ps)
    ensures Positions(cs) == ps
    ensures forall j, k :: 0 <= j < k < |cs| ==> cs[j].position != cs[k].position
  {
    forall p | p in ps ensures p in Positions(cs) {
      var j :| 0 <= j < |cs| && cs[j] == world[p];
    }
  }

  /** A chunk whose mesh is rebuilt: still valid, and no longer dirty
      unless it is empty. */
  ghost predicate Cleaned(c: Chunk)
    reads c, c.voxels
  {
    c.Valid() && (!c.isEmpty ==> !c.isDirty)
  }

  /** A rebuild leaves a chunk's slots and its empty and modified flags as
      they were. */
  ghost predicate Untouched(c: Chunk, neighbors: seq<Option<ChunkPosition>>, isEmpty: bool, isModified: bool)
    reads c
  {
    c.neighbors == neighbors && c.isEmpty == isEmpty && c.isModified == isModified
  }

  /** The fields of a chunk a rebuild could touch, as values. */
  datatype Flags = Flags(neighbors: seq<Option<ChunkPosition>>, isEmpty: bool, isModified: bool, isDirty: bool)

  ghost function FlagsOf(c: Chunk): Flags
    reads c
  {
    Flags(c.neighbors, c.isEmpty, c.isModified, c.isDirty)
  }

  /** The flags of each chunk of a list, in order. */
  ghost function FlagsList(cs: seq<Chunk>): (fs: seq<Flags>)
    reads set j | 0 <= j < |cs| :: cs[j]
    ensures |fs| == |cs| && forall j :: 0 <= j < |cs| ==> fs[j] == FlagsOf(cs[j])
  {
    seq(|cs|, j requires 0 <= j < |cs| reads set k | 0 <= k < |cs| :: cs[k] => FlagsOf(cs[j]))
  }

  /** A chunk whose flags were `before`, after its turn in a rebuild
      (`rebuilt`) or before it: it is Untouched, and its dirty flag is the
      one it had, cleared by the rebuild unless the chunk is empty. */
  ghost predicate Kept(c: Chunk, before: Flags, rebuilt: bool)
    reads c
  {
    && Untouched(c, before.neighbors, before.isEmpty, before.isModified)
    && c.isDirty == (before.isDirty && (!rebuilt || before.isEmpty))
  }



  /** A mesh the cache may hold: a non-empty mesh with three distinct live
      handles. */
  ghost predicate Uploaded(m: ChunkMesh, gpu: Device)
    reads m, gpu
  {
    && m.indexCount > 0
    && m.vao != 0 && m.vbo != 0 && m.ebo != 0
    && m.vao != m.vbo && m.vbo != m.ebo && m.vao != m.ebo
    && Handles(m) <= gpu.live
  }

  /** The faces counter's share of one mesh: a third of its indices, with
      Go's truncating division. */
  function TriangleCount(indexCount: int): int {
    GoDiv(indexCount, 3)
  }

  /** A mesh holding the faces es draws two triangles per face. */
  lemma {:induction false} TriangleCountOfFaces(m: ChunkMesh, es: seq<FaceEmit>)
    requires m.Holds(es)
    ensures TriangleCount(m.indexCount) == 2 * |es|
  {
    DivisionIsUnique(m.indexCount, 3, 2 * |es|, 0);
  }

  /** The total of TriangleCount over the positions ps of a map of index
      counts, in no particular order. */
  ghost function FaceSum(counts: map<ChunkPosition, int>, ps: set<ChunkPosition>): int
    requires ps <= counts.Keys
    decreases ps
  {
    if ps == {} then 0
    else
      var p :| p in ps;
      TriangleCount(counts[p]) + FaceSum(counts, ps - {p})
  }

  /** FaceSum does not depend on the order it adds up in: any position can
      be taken out first. */
  lemma {:induction false} FaceSumTakeAny(counts: map<ChunkPosition, int>, ps: set<ChunkPosition>, q: ChunkPosition)
    requires ps <= counts.Keys && q in ps
    ensures FaceSum(counts, ps) == TriangleCount(counts[q]) + FaceSum(counts, ps - {q})
    decreases ps
  {
    var p :| p in ps && FaceSum(counts, ps) == TriangleCount(counts[p]) + FaceSum(counts, ps - {p});
    if p != q {
      FaceSumTakeAny(counts, ps - {p}, q);
      FaceSumTakeAny(counts, ps - {q}, p);
      assert ps - {p} - {q} == ps - {q} - {p};
    }
  }

  /** The index counts of the meshes of a cache. */
  ghost function IndexCounts(meshes: map<ChunkPosition, ChunkMesh>): (counts: map<ChunkPosition, int>)
    reads meshes.Values
    ensures counts.Keys == meshes.Keys
  {
    map p | p in meshes :: meshes[p].indexCount
  }

  /** Allocates the mesh's vertex array and its two buffers. */
  method UploadMesh(mesh: ChunkMesh, gpu: Device)
    requires gpu.Valid()
    modifies mesh, gpu
    ensures gpu.Valid()
    ensures mesh.vao != 0 && mesh.vbo != 0 && mesh.ebo != 0
    ensures mesh.vao != mesh.vbo && mesh.vbo != mesh.ebo && mesh.vao != mesh.ebo
    ensures Handles(mesh) !! old(gpu.live) && gpu.live == old(gpu.live) + Handles(mesh)
    ensures mesh.vertices == old(mesh.vertices) && mesh.indices == old(mesh.indices)
    ensures mesh.vertexCount == old(mesh.vertexCount) && mesh.indexCount == old(mesh.indexCount)
  {
    var vao := gpu.Gen();
    var vbo := gpu.Gen();
    var ebo := gpu.Gen();
    mesh.vao, mesh.vbo, mesh.ebo := vao, vbo, ebo;
  }

  /** Releases each non-zero handle of the mesh and zeroes it; a mesh whose
      handles are all 0 releases nothing, so a second call is harmless. */
  method DeleteMesh(mesh: ChunkMesh, gpu: Device)
    modifies mesh, gpu
    ensures mesh.vao == 0 && mesh.vbo == 0 && mesh.ebo == 0
    ensures gpu.live == old(gpu.live) - (old(Handles(mesh)) - {0})
    ensures old(gpu.Valid()) ==> gpu.Valid()
    ensures mesh.vertices == old(mesh.vertices) && mesh.indices == old(mesh.indices)
    ensures mesh.vertexCount == old(mesh.vertexCount) && mesh.indexCount == old(mesh.indexCount)
  {
    if mesh.vao != 0 {
      gpu.Release(mesh.vao);
      mesh.vao := 0;
    }
    if mesh.vbo != 0 {
      gpu.Release(mesh.vbo);
      mesh.vbo := 0;
    }
    if mesh.ebo != 0 {
      gpu.Release(mesh.ebo);
      mesh.ebo := 0;
    }
  }

  /** Clear's loop: DeleteMesh on each of the meshes ms, in no particular
      order. Every mesh ends up holding no handle, and the device has
      released exactly the handles they held. */
  method ReleaseAll(ms: set<ChunkMesh>, gpu: Device)
    requires gpu.Valid() && Unshared(HandleMap(ms)) && Union(HandleMap(ms), ms) <= gpu.live
    modifies gpu, ms
    ensures gpu.Valid()
    ensures forall m :: m in ms ==> Zeroed(m)
    ensures gpu.live == old(gpu.live) - Union(old(HandleMap(ms)), ms)
  {
    ghost var hs := HandleMap(ms);
    ghost var done: set<ChunkMesh> := {};
    var todo := ms;
    while todo != {}
      invariant todo + done == ms && Releasing(gpu, todo, done, hs, old(gpu.live))
      decreases |todo|
    {
      var m :| m in todo;
      ReleaseOne(m, gpu, todo, done, hs, old(gpu.live));
      todo := todo - {m};
      done := done + {m};
    }
  }

  /** One turn of Clear's loop. */
  method ReleaseOne(m: ChunkMesh, gpu: Device, ghost todo: set<ChunkMesh>, ghost done: set<ChunkMesh>, ghost hs: map<ChunkMesh, set<int>>, ghost live0: set<int>)
    requires m in todo && Releasing(gpu, todo, done, hs, live0)
    modifies m, gpu
    ensures Releasing(gpu, todo - {m}, done + {m}, hs, live0)
  {
    ghost var live := gpu.live;
    DeleteMesh(m, gpu);
    AccountStep(live0, live, gpu.live, hs, todo, m);
  }

  class ChunkRenderer {
    var meshes: map<ChunkPosition, ChunkMesh>
    var renderedChunks: int
    var renderedFaces: int
    const gpu: Device

    /** The meshes in the cache. */
    ghost function Cached(): set<ChunkMesh>
      reads this
    {
      meshes.Values
    }

    /** The cache invariant: every cached mesh is non-empty and uploaded,
        and no two positions share a mesh or a handle. */
    ghost predicate Valid()
      reads this, gpu, Cached()
    {
      && gpu.Valid()
      && (forall p {:trigger meshes[p]} :: p in meshes ==> Uploaded(meshes[p], gpu))
      && Separate(meshes)
    }

    /** A new renderer has an empty cache and zero counters. */
    constructor (gpu: Device)
      requires gpu.Valid()
      ensures Valid() && this.gpu == gpu
      ensures meshes == map[] && renderedChunks == 0 && renderedFaces == 0
    {
      this.gpu := gpu;
      meshes := map[];
      renderedChunks, renderedFaces := 0, 0;
    }

    /** The mesh cached at pos, as a set: empty when there is none. */
    ghost function MeshAt(pos: ChunkPosition): set<ChunkMesh>
      reads this
    {
      if pos in meshes then {meshes[pos]} else {}
    }

    /** The handles of the mesh cached at pos; none when there is no mesh. */
    ghost function HandlesAt(pos: ChunkPosition): set<int>
      reads this, Cached()
    {
      if pos in meshes then Handles(meshes[pos]) else {}
    }

    /** The cache shows the faces es at pos: a mesh holding exactly es when
        there is any face, and no mesh at all when there is none. */
    ghost predicate Shows(pos: ChunkPosition, es: seq<FaceEmit>)
      reads this, Cached()
    {
      && (pos in meshes <==> es != [])
      && (pos in meshes ==> meshes[pos].Holds(es))
    }

    /** Rebuilds the mesh of chunk c: the old mesh at its position, if any,
        is released; a mesh with faces is uploaded and cached, an empty one
        is dropped and the position left without a mesh. The other entries
        of the cache stay as they were. */
    method UpdateChunkMesh(c: Chunk, world: map<ChunkPosition, Chunk>)
      requires Valid() && c.Valid() && Sized(world)
      modifies this, c, gpu, MeshAt(c.position)
      ensures Valid() && c.Valid()
      ensures Shows(c.position, GeneratedFaces(old(c.View(world)), c.GetWorldPosition()))
      ensures c.position in meshes ==> fresh(meshes[c.position])
      ensures SameElsewhere(meshes, old(meshes), c.position)
      ensures forall m :: m in old(MeshAt(c.position)) ==> Zeroed(m)
      ensures HandlesAt(c.position) !! old(gpu.live) - old(HandlesAt(c.position))
      ensures gpu.live == old(gpu.live) - old(HandlesAt(c.position)) + HandlesAt(c.position)
      ensures renderedChunks == old(renderedChunks) && renderedFaces == old(renderedFaces)
      ensures c.isDirty == (old(c.isDirty) && c.isEmpty)
      ensures c.neighbors == old(c.neighbors) && c.isEmpty == old(c.isEmpty) && c.isModified == old(c.isModified)
    {
      var mesh := c.GenerateMesh(world);
      ghost var es := GeneratedFaces(old(c.View(world)), c.GetWorldPosition());
      ReplaceMesh(c.position, mesh, es);
    }

    /** The rest of UpdateChunkMesh, once the new mesh is built: the old
        mesh at pos, if any, is released; the new mesh is uploaded and cached
        when it holds a face, and pos is left without a mesh otherwise. */
    method ReplaceMesh(pos: ChunkPosition, mesh: ChunkMesh, ghost es: seq<FaceEmit>)
      requires Valid() && mesh !in Cached() && mesh.Holds(es)
      modifies this, gpu, mesh, MeshAt(pos)
      ensures Valid() && Shows(pos, es)
      ensures pos in meshes ==> meshes[pos] == mesh
      ensures SameElsewhere(meshes, old(meshes), pos)
      ensures forall m :: m in old(MeshAt(pos)) ==> Zeroed(m)
      ensures HandlesAt(pos) !! old(gpu.live) - old(HandlesAt(pos))
      ensures gpu.live == old(gpu.live) - old(HandlesAt(pos)) + HandlesAt(pos)
      ensures renderedChunks == old(renderedChunks) && renderedFaces == old(renderedFaces)
    {
      if pos in meshes {
        DropMesh(pos);
      }
      var empty := mesh.IsEmpty();
      if empty {
        meshes := meshes - {pos};
        return;
      }
      CacheMesh(pos, mesh, es);
    }

    /** DeleteMesh on the mesh cached at pos, which then leaves the cache. */
    method DropMesh(pos: ChunkPosition)
      requires Valid() && pos in meshes
      modifies this, gpu, MeshAt(pos)
      ensures Valid() && meshes == old(meshes) - {pos}
      ensures Zeroed(old(meshes[pos]))
      ensures gpu.live == old(gpu.live) - old(HandlesAt(pos))
      ensures renderedChunks == old(renderedChunks) && renderedFaces == old(renderedFaces)
    {
      DeleteMesh(meshes[pos], gpu);
      meshes := meshes - {pos};
    }

    /** UploadMesh on a new mesh with faces, which is then cached at pos. */
    method CacheMesh(pos: ChunkPosition, mesh: ChunkMesh, ghost es: seq<FaceEmit>)
      requires Valid() && pos !in meshes && mesh !in Cached()
      requires mesh.Holds(es) && es != []
      modifies this, gpu, mesh
      ensures Valid() && meshes == old(meshes)[pos := mesh] && mesh.Holds(es)
      ensures Handles(mesh) !! old(gpu.live) && gpu.live == old(gpu.live) + Handles(mesh)
      ensures renderedChunks == old(renderedChunks) && renderedFaces == old(renderedFaces)
    {
      UploadMesh(mesh, gpu);
      meshes := meshes[pos := mesh];
    }

    /** Rebuilds the mesh of every chunk due for it (dirty and not empty),
        in the order the manager lists them, and returns how many there
        were. Afterwards no chunk is due, each rebuilt position holds a fresh
        mesh or none, and every other position keeps its entry. The manager
        stays consistent: every loaded chunk keeps its slots and its empty
        and modified flags, and keeps its dirty flag exactly when it was not
        rebuilt. */
    method UpdateDirtyChunks(mgr: ChunkManager) returns (n: int)
      requires Valid() && mgr.Valid()
      modifies this, gpu, Cached(), ChunkSet(mgr.chunks)
      ensures Valid() && mgr.Valid()
      ensures n == |old(ToRebuild(mgr.chunks))|
      ensures ToRebuild(mgr.chunks) == {}
      ensures forall p {:trigger mgr.chunks[p]} :: p in mgr.chunks ==>
                && Untouched(mgr.chunks[p], old(mgr.chunks[p].neighbors), old(mgr.chunks[p].isEmpty), old(mgr.chunks[p].isModified))
                && mgr.chunks[p].isDirty == (old(mgr.chunks[p].isDirty) && mgr.chunks[p].isEmpty)
      ensures forall p :: p in old(ToRebuild(mgr.chunks)) && p in meshes ==> fresh(meshes[p])
      ensures SameOutside(meshes, old(meshes), old(ToRebuild(mgr.chunks)))
      ensures renderedChunks == old(renderedChunks) && renderedFaces == old(renderedFaces)
    {
      var dirty := mgr.GetDirtyChunks();
      RebuildDirty(dirty, mgr.chunks);
      n := |dirty|;
      forall p | p in mgr.chunks
        ensures mgr.chunks[p].Valid()
        ensures forall f :: IsFace(f) ==> SlotHolds(mgr.chunks, p, f, Link(mgr.chunks.Keys, p, f))
      {
        assert old(mgr.chunks[p].Valid());
        assert forall f :: IsFace(f) ==> old(SlotHolds(mgr.chunks, p, f, Link(mgr.chunks.Keys, p, f)));
      }
      assert AllValid(mgr.chunks) && Wired(mgr.chunks);
    }

    /** UpdateDirtyChunks' loop over the list GetDirtyChunks collected,
        stated of the whole map: the chunks due are rebuilt and lose their
        dirty flag, and every loaded chunk keeps its slots and its empty and
        modified flags. */
    method RebuildDirty(dirty: seq<Chunk>, world: map<ChunkPosition, Chunk>)
      requires Valid() && Positioned(world) && Sized(world) && AllValid(world)
      requires Collected(world, dirty, ToRebuild(world))
      modifies this, gpu, Cached(), ChunkSet(world)
      ensures Valid()
      ensures |dirty| == |old(ToRebuild(world))|
      ensures forall p {:trigger world[p]} :: p in world ==>
                && Untouched(world[p], old(world[p].neighbors), old(world[p].isEmpty), old(world[p].isModified))
                && world[p].isDirty == (old(world[p].isDirty) && world[p].isEmpty)
      ensures forall p :: p in old(ToRebuild(world)) && p in meshes ==> fresh(meshes[p])
      ensures SameOutside(meshes, old(meshes), old(ToRebuild(world)))
      ensures renderedChunks == old(renderedChunks) && renderedFaces == old(renderedFaces)
    {
      CollectedPositions(world, dirty, ToRebuild(world));
      RebuildAll(dirty, world);
      forall p | p in world
        ensures Untouched(world[p], old(world[p].neighbors), old(world[p].isEmpty), old(world[p].isModified))
        ensures world[p].isDirty == (old(world[p].isDirty) && world[p].isEmpty)
      {
        if p in Positions(dirty) {
          var j :| 0 <= j < |dirty| && dirty[j].position == p;
          assert world[p] == dirty[j];
          assert Kept(dirty[j], old(FlagsOf(dirty[j])), true);
        } else {
          assert forall j :: 0 <= j < |dirty| ==> dirty[j] != world[p];
        }
      }
    }

    /** UpdateDirtyChunks' loop: UpdateChunkMesh on each chunk of the list
        in turn. */
    method RebuildAll(dirty: seq<Chunk>, world: map<ChunkPosition, Chunk>)
      requires Valid() && Sized(world)
      requires forall j :: 0 <= j < |dirty| ==> dirty[j].Valid()
      requires forall j, k :: 0 <= j < k < |dirty| ==> dirty[j].position != dirty[k].position
      modifies this, gpu, Cached(), dirty
      ensures Valid()
      ensures forall j :: 0 <= j < |dirty| ==> Cleaned(dirty[j])
      ensures forall j :: 0 <= j < |dirty| ==> Kept(dirty[j], old(FlagsOf(dirty[j])), true)
      ensures forall p :: p in Positions(dirty) && p in meshes ==> fresh(meshes[p])
      ensures SameOutside(meshes, old(meshes), Positions(dirty))
      ensures renderedChunks == old(renderedChunks) && renderedFaces == old(renderedFaces)
    {
      var i := 0;
      ghost var done: set<ChunkPosition> := {};
      ghost var before := FlagsList(dirty);
      while i < |dirty|
        invariant Valid() && Progress(dirty, i, done, old(meshes), before)
        invariant forall p :: p in done && p in meshes ==> fresh(meshes[p])
        invariant done <= Positions(dirty)
        invariant renderedChunks == old(renderedChunks) && renderedFaces == old(renderedFaces)
      {
        assert dirty[i].position in Positions(dirty);
        RebuildNext(dirty, i, world, done, old(meshes), before);
        done := done + {dirty[i].position};
        i := i + 1;
      }
    }

    /** Part way through UpdateDirtyChunks' loop, before dirty[i]: the
        chunks from i on are valid and their positions not done yet; the
        chunks before i are rebuilt and their positions done; every position
        not done keeps its entry of meshes0. */
    ghost predicate Progress(dirty: seq<Chunk>, i: int, done: set<ChunkPosition>, meshes0: map<ChunkPosition, ChunkMesh>, before: seq<Flags>)
      reads this, set j | 0 <= j < |dirty| :: dirty[j], set j | 0 <= j < |dirty| :: dirty[j].voxels
    {
      && 0 <= i <= |dirty| == |before|
      && (forall j :: i <= j < |dirty| ==> dirty[j].Valid() && dirty[j].position !in done && Kept(dirty[j], before[j], false))
      && (forall j :: 0 <= j < i ==> Cleaned(dirty[j]) && dirty[j].position in done && Kept(dirty[j], before[j], true))
      && SameOutside(meshes, meshes0, done)
    }

    /** One turn of UpdateDirtyChunks' loop. */
    method RebuildNext(dirty: seq<Chunk>, i: int, world: map<ChunkPosition, Chunk>, ghost done: set<ChunkPosition>, ghost meshes0: map<ChunkPosition, ChunkMesh>, ghost before: seq<Flags>)
      requires Valid() && Progress(dirty, i, done, meshes0, before) && i < |dirty| && Sized(world)
      requires forall j, k :: 0 <= j < k < |dirty| ==> dirty[j].position != dirty[k].position
      modifies this, gpu, MeshAt(dirty[i].position), dirty[i]
      ensures Valid() && Progress(dirty, i + 1, done + {dirty[i].position}, meshes0, before)
      ensures dirty[i].position in meshes ==> fresh(meshes[dirty[i].position])
      ensures SameElsewhere(meshes, old(meshes), dirty[i].position)
      ensures renderedChunks == old(renderedChunks) && renderedFaces == old(renderedFaces)
    {
      Rebuild(dirty[i], world);
    }

    /** UpdateChunkMesh, stated without the faces: afterwards c is no longer
        due and only the entry at c's position has changed. */
    method Rebuild(c: Chunk, world: map<ChunkPosition, Chunk>)
      requires Valid() && c.Valid() && Sized(world)
      modifies this, gpu, MeshAt(c.position), c
      ensures Valid() && Cleaned(c)
      ensures Kept(c, old(FlagsOf(c)), true)
      ensures c.position in meshes ==> fresh(meshes[c.position])
      ensures SameElsewhere(meshes, old(meshes), c.position)
      ensures renderedChunks == old(renderedChunks) && renderedFaces == old(renderedFaces)
    {
      UpdateChunkMesh(c, world);
    }

    /** Draws the cached mesh at pos: the faces counter grows by its triangle
        count; a position with no mesh, or with an empty one, draws nothing. */
    method RenderChunk(pos: ChunkPosition)
      modifies this
      ensures pos in meshes ==> renderedFaces == old(renderedFaces) + TriangleCount(meshes[pos].indexCount)
      ensures pos !in meshes ==> renderedFaces == old(renderedFaces)
      ensures meshes == old(meshes) && renderedChunks == old(renderedChunks)
    {
      if pos !in meshes {
        return;
      }
      var mesh := meshes[pos];
      var empty := mesh.IsEmpty();
      if empty {
        return;
      }
      renderedFaces := renderedFaces + TriangleCount(mesh.indexCount);
    }

    /** The counters of the last frame: chunks drawn and triangles drawn. */
    function GetStats(): (stats: (int, int))
      reads this
      ensures stats.0 == renderedChunks && stats.1 == renderedFaces
    {
      (renderedChunks, renderedFaces)
    }

    /** Draws every cached mesh: afterwards the chunks counter is the number
        of cached meshes and the faces counter the total of their triangle
        counts. */
    method RenderAll()
      modifies this
      ensures meshes == old(meshes)
      ensures GetStats() == (|meshes|, FaceSum(IndexCounts(meshes), meshes.Keys))
    {
      renderedChunks := 0;
      renderedFaces := 0;
      ghost var counts := IndexCounts(meshes);
      var todo := meshes.Keys;
      while todo != {}
        invariant meshes == old(meshes)
        invariant todo <= counts.Keys
        invariant renderedChunks + |todo| == |meshes|
        invariant renderedFaces + FaceSum(counts, todo) == FaceSum(counts, counts.Keys)
        decreases |todo|
      {
        var p :| p in todo;
        assert meshes[p].indexCount == counts[p];
        RenderChunk(p);
        renderedChunks := renderedChunks + 1;
        FaceSumTakeAny(counts, todo, p);
        todo := todo - {p};
      }
      assert IndexCounts(meshes) == counts;
    }

    /** The number of cached meshes. */
    function GetMeshCount(): (n: int)
      reads this
      ensures n == |meshes|
    {
      |meshes|
    }

    /** Releases the handles of every cached mesh and empties the cache. */
    method Clear()
      requires Valid()
      modifies this, gpu, Cached()
      ensures Valid() && meshes == map[] && GetMeshCount() == 0
      ensures forall m :: m in old(Cached()) ==> Zeroed(m)
      ensures gpu.live == old(gpu.live) - Union(old(HandleMap(Cached())), old(Cached()))
    {
      SeparateValues(meshes, gpu.live);
      ReleaseAll(meshes.Values, gpu);
      meshes := map[];
    }
  }
}
