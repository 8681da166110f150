/**
 * Chunk coordinates and the split of a global voxel coordinate into a chunk
 * coordinate and a local coordinate (pkg/chunk/chunk_position.go).
 *
 * The source's coordinates are `int32`; here they are unbounded integers, and
 * Go's truncating `/` and `%` are written out as `GoDiv` and `GoRem`.
 */
module ChunkPositions {
  import opened Voxels

  /** Voxels along each edge of a chunk. */
  const ChunkSize: int := 32

  /** A chunk's coordinate on the chunk grid (not a voxel coordinate). */
  datatype ChunkPosition = ChunkPosition(x: int, y: int, z: int) {

    function Add(other: ChunkPosition): ChunkPosition {
      ChunkPosition(x + other.x, y + other.y, z + other.z)
    }

    function Sub(other: ChunkPosition): ChunkPosition {
      ChunkPosition(x - other.x, y - other.y, z - other.z)
    }

    /** Manhattan distance on the chunk grid. */
    function Distance(other: ChunkPosition): (d: int)
      ensures d >= 0
      ensures d == 0 <==> this == other
    {
      Abs(x - other.x) + Abs(y - other.y) + Abs(z - other.z)
    }

    /** The chunk one step away through `face`. */
    function GetNeighborPosition(face: VoxelFace): (n: ChunkPosition)
      ensures IsFace(face) ==> Distance(n) == 1
      ensures !IsFace(face) ==> n == this
    {
      var offset := GetFaceOffset(face);
      ChunkPosition(x + offset.x, y + offset.y, z + offset.z)
    }
  }

  /** Chunk-grid addition undoes subtraction, and distance is symmetric and
      obeys the triangle inequality. */
  lemma ChunkArithmetic(p: ChunkPosition, q: ChunkPosition, r: ChunkPosition)
    ensures p.Add(q).Sub(q) == p && p.Sub(q).Add(q) == p
    ensures p.Distance(q) == q.Distance(p)
    ensures p.Distance(r) <= p.Distance(q) + q.Distance(r)
  {
  }

  /** Going to a neighbour adds exactly that face's offset. */
  lemma NeighborIsOffset(p: ChunkPosition, face: VoxelFace)
    ensures var o := GetFaceOffset(face);
            p.GetNeighborPosition(face).Sub(p) == ChunkPosition(o.x, o.y, o.z)
  {
  }

  /** Go's integer `/`: the quotient truncated toward zero. */
  function GoDiv(a: int, b: int): int
    requires b > 0
  {
    if a >= 0 then a / b else -((-a) / b)
  }

  /** Go's integer `%`: the remainder that goes with `GoDiv`. */
  function GoRem(a: int, b: int): int
    requires b > 0
  {
    a - b * GoDiv(a, b)
  }

  /** Division rounding toward negative infinity, as the source writes it. */
  function FloorDiv(a: int, b: int): int
    requires b > 0
  {
    if a < 0 then GoDiv(a - b + 1, b) else GoDiv(a, b)
  }

  /** The remainder that always lies in [0, b), as the source writes it. */
  function Mod(a: int, b: int): int
    requires b > 0
  {
    var result := GoRem(a, b);
    if result < 0 then result + b else result
  }

  /** If n is q groups of b plus a remainder in [0, b), then q and that
      remainder are what division gives. */
  lemma {:induction false} DivisionIsUnique(n: int, b: int, q: int, r: int)
    requires b > 0 && 0 <= r < b && n == q * b + r
    ensures n / b == q && n % b == r
  {
    var d := q - n / b;
    assert d * b == n % b - r;
  }

  /** Go's remainder takes the sign of the dividend and is smaller than b. */
  lemma {:induction false} GoRemBounds(a: int, b: int)
    requires b > 0
    ensures a == GoDiv(a, b) * b + GoRem(a, b)
    ensures a >= 0 ==> 0 <= GoRem(a, b) < b
    ensures a < 0 ==> -b < GoRem(a, b) <= 0
  {
    if a < 0 {
      assert GoRem(a, b) == -((-a) % b);
    }
  }

  /** For b > 0, FloorDiv is the floor of a / b, for negative dividends too;
      Dafny's `/` on int is Euclidean, which is floor division for b > 0. */
  lemma {:induction false} FloorDivIsFloor(a: int, b: int)
    requires b > 0
    ensures FloorDiv(a, b) == a / b
    ensures FloorDiv(a, b) * b <= a < FloorDiv(a, b) * b + b
  {
    var q, r := a / b, a % b;
    if a < 0 {
      assert a == q * b + r;
      assert b - 1 - a == (-q) * b + (b - 1 - r);
      DivisionIsUnique(b - 1 - a, b, -q, b - 1 - r);
      assert -(a - b + 1) == b - 1 - a;
    }
  }

  /** For b > 0, Mod lies in [0, b) and is a's remainder modulo b. */
  lemma {:induction false} ModIsFloorMod(a: int, b: int)
    requires b > 0
    ensures Mod(a, b) == a % b
    ensures 0 <= Mod(a, b) < b
  {
    if a < 0 {
      var m := -a;
      var q', r' := m / b, m % b;
      assert m == q' * b + r';
      assert GoRem(a, b) == -r';
      if r' == 0 {
        DivisionIsUnique(a, b, -q', 0);
      } else {
        assert a == (-q' - 1) * b + (b - r');
        DivisionIsUnique(a, b, -q' - 1, b - r');
      }
    } else {
      assert GoRem(a, b) == a % b;
    }
  }

  /** Floor division and floor modulo put a back together. */
  lemma {:induction false} FloorDivModRoundTrip(a: int, b: int)
    requires b > 0
    ensures FloorDiv(a, b) * b + Mod(a, b) == a
    ensures 0 <= Mod(a, b) < b
  {
    FloorDivIsFloor(a, b);
    ModIsFloorMod(a, b);
    assert a == (a / b) * b + a % b;
  }

  /** The chunk that holds a voxel (floor division on every axis). */
  function VoxelToChunkPosition(p: VoxelPosition): ChunkPosition {
    ChunkPosition(FloorDiv(p.x, ChunkSize), FloorDiv(p.y, ChunkSize), FloorDiv(p.z, ChunkSize))
  }

  /** The voxel's coordinate inside its chunk (floor modulo on every axis). */
  function VoxelToLocalPosition(p: VoxelPosition): (int, int, int) {
    (Mod(p.x, ChunkSize), Mod(p.y, ChunkSize), Mod(p.z, ChunkSize))
  }

  /** The split of a voxel coordinate round-trips: chunk * ChunkSize + local
      gives the voxel back on every axis, and every local coordinate lies in
      [0, ChunkSize). */
  lemma {:induction false} ChunkLocalRoundTrip(p: VoxelPosition)
    ensures var c, l := VoxelToChunkPosition(p), VoxelToLocalPosition(p);
            && c.x * ChunkSize + l.0 == p.x
            && c.y * ChunkSize + l.1 == p.y
            && c.z * ChunkSize + l.2 == p.z
            && 0 <= l.0 < ChunkSize && 0 <= l.1 < ChunkSize && 0 <= l.2 < ChunkSize
  {
    FloorDivModRoundTrip(p.x, ChunkSize);
    FloorDivModRoundTrip(p.y, ChunkSize);
    FloorDivModRoundTrip(p.z, ChunkSize);
  }

  /** Conversely, any chunk coordinate and in-range local coordinate that add
      up to the voxel are the ones the split returns. */
  lemma {:induction false} ChunkLocalUnique(p: VoxelPosition, c: ChunkPosition, lx: int, ly: int, lz: int)
    requires 0 <= lx < ChunkSize && 0 <= ly < ChunkSize && 0 <= lz < ChunkSize
    requires p == VoxelPosition(c.x * ChunkSize + lx, c.y * ChunkSize + ly, c.z * ChunkSize + lz)
    ensures VoxelToChunkPosition(p) == c
    ensures VoxelToLocalPosition(p) == (lx, ly, lz)
  {
    FloorDivIsFloor(p.x, ChunkSize);
    FloorDivIsFloor(p.y, ChunkSize);
    FloorDivIsFloor(p.z, ChunkSize);
    ModIsFloorMod(p.x, ChunkSize);
    ModIsFloorMod(p.y, ChunkSize);
    ModIsFloorMod(p.z, ChunkSize);
    DivisionIsUnique(p.x, ChunkSize, c.x, lx);
    DivisionIsUnique(p.y, ChunkSize, c.y, ly);
    DivisionIsUnique(p.z, ChunkSize, c.z, lz);
  }

  /** Negative coordinates go to negative chunks: voxel -1 is the last voxel
      of chunk -1, and -32 is the first voxel of chunk -1. */
  lemma NegativeExamples()
    ensures FloorDiv(-1, ChunkSize) == -1 && FloorDiv(-32, ChunkSize) == -1
    ensures FloorDiv(-33, ChunkSize) == -2 && FloorDiv(31, ChunkSize) == 0
    ensures VoxelToChunkPosition(VoxelPosition(-1, -1, -1)) == ChunkPosition(-1, -1, -1)
    ensures VoxelToLocalPosition(VoxelPosition(-1, -1, -1)) == (31, 31, 31)
  {
  }

  // The source computes floorDiv in int32 arithmetic, where `a - b + 1`
  // wraps around for the most negative dividends.

  const MinInt32: int := -0x8000_0000
  const MaxInt32: int := 0x7fff_ffff

  predicate IsInt32(n: int) {
    MinInt32 <= n <= MaxInt32
  }

  /** Two's-complement wrap-around of an integer into int32. */
  function Wrap32(n: int): (r: int)
    ensures IsInt32(r)
    ensures IsInt32(n) ==> r == n
  {
    (n - MinInt32) % 0x1_0000_0000 + MinInt32
  }

  /** floorDiv exactly as written, in int32 arithmetic. */
  function FloorDivInt32(a: int, b: int): int
    requires IsInt32(a) && IsInt32(b) && b > 0
  {
    if a < 0 then GoDiv(Wrap32(a - b + 1), b) else GoDiv(a, b)
  }

  /** Wherever `a - b + 1` stays inside int32 the as-written floorDiv equals
      the unbounded one used throughout this model. */
  lemma {:induction false} FloorDivInt32AgreesInRange(a: int, b: int)
    requires IsInt32(a) && IsInt32(b) && b > 0
    requires IsInt32(a - b + 1)
    ensures FloorDivInt32(a, b) == FloorDiv(a, b)
  {
  }

  /** At the bottom of the int32 range the as-written floorDiv wraps around:
      voxel -2147483648 is put in chunk 67108863 instead of -67108864, and the
      round trip chunk * ChunkSize + local no longer returns the voxel. */
  lemma FloorDivInt32WrapsAtMinimum()
    ensures FloorDivInt32(MinInt32, ChunkSize) == 67108863
    ensures FloorDiv(MinInt32, ChunkSize) == -67108864
    ensures FloorDivInt32(MinInt32, ChunkSize) * ChunkSize + Mod(MinInt32, ChunkSize) != MinInt32
  {
    assert Wrap32(MinInt32 - ChunkSize + 1) == 2147483617;
  }
}
