/** A 16x16x16 chunk of block ids stored as bytes, with bounds-checked reads
    and writes, the solidity test, and the instance placement of a rebuild. */
module VoxelChunk {
  import opened Common
  import opened BlockTypes

  const Size: int := 16
  /** Length of the block store, `Size` cubed. */
  const Volume: int := 4096

  /** One element of a `Uint8Array`. */
  type Byte = b: int | 0 <= b < 256

  /** Numeric block id to definition. The library lookup that fills this role
      (`getByNumericId`) is not part of this model, so it is an input. */
  type NumericIndex = map<int, BlockDefinition>

  datatype Chunk = Chunk(blocks: seq<Byte>, chunkPosition: Vec3)
  {
    predicate Valid() { |blocks| == Volume }
  }

  /** The constructor: an all-air store at the given chunk position. */
  function NewChunk(chunkPosition: Vec3): (c: Chunk)
    ensures c.Valid() && c.chunkPosition == chunkPosition
  {
    Chunk(seq(Volume, i => 0), chunkPosition)
  }

  predicate InBounds(x: int, y: int, z: int) {
    0 <= x < Size && 0 <= y < Size && 0 <= z < Size
  }

  /** The fixed linearisation: x varies fastest, then y, then z. */
  function Index(x: int, y: int, z: int): (i: int)
    requires InBounds(x, y, z)
    ensures 0 <= i < Volume
  {
    x + Size * (y + Size * z)
  }

  /** The cell stored at offset `i`. */
  function CellAt(i: int): (c: Cell)
    requires 0 <= i < Volume
    ensures InBounds(c.x, c.y, c.z)
  {
    Cell(i % Size, (i / Size) % Size, i / (Size * Size))
  }

  /** `Index` maps the cube one-to-one onto the whole store: every offset is
      the index of exactly the cell `CellAt` gives. */
  lemma IndexBijective(x: int, y: int, z: int, i: int)
    requires InBounds(x, y, z) && 0 <= i < Volume
    ensures CellAt(Index(x, y, z)) == Cell(x, y, z)
    ensures Index(CellAt(i).x, CellAt(i).y, CellAt(i).z) == i
  {
    var j := Index(x, y, z);
    DivModUnique(j, Size, y + Size * z, x);
    DivModUnique(y + Size * z, Size, z, y);
    DivModUnique(j, Size * Size, z, x + Size * y);
    var q, r := i / Size, i % Size;
    DivModUnique(q, Size, q / Size, q % Size);
    DivModUnique(i, Size * Size, q / Size, r + Size * (q % Size));
  }

  /** Distinct in-bounds cells have distinct offsets. */
  lemma IndexInjective(x: int, y: int, z: int, x': int, y': int, z': int)
    requires InBounds(x, y, z) && InBounds(x', y', z')
    ensures Index(x, y, z) == Index(x', y', z') ==> x == x' && y == y' && z == z'
  {
    IndexBijective(x, y, z, 0);
    IndexBijective(x', y', z', 0);
  }

  /** The `Uint8Array` store conversion of an integer. */
  function ToUint8(v: int): (b: Byte)
    ensures 0 <= v < 256 ==> b == v
    ensures (v - b) % 256 == 0
  {
    v % 256
  }

  /** `setBlock`: writes the byte conversion of `id` in bounds, does nothing
      out of bounds. */
  function SetBlock(c: Chunk, x: int, y: int, z: int, id: int): (r: Chunk)
    requires c.Valid()
    ensures r.Valid() && r.chunkPosition == c.chunkPosition
    ensures !InBounds(x, y, z) ==> r == c
  {
    if !InBounds(x, y, z) then c
    else c.(blocks := c.blocks[Index(x, y, z) := ToUint8(id)])
  }

  /** `getBlock`: the stored byte in bounds, air (0) out of bounds. */
  function GetBlock(c: Chunk, x: int, y: int, z: int): (b: Byte)
    requires c.Valid()
    ensures !InBounds(x, y, z) ==> b == 0
  {
    if !InBounds(x, y, z) then 0 else c.blocks[Index(x, y, z)]
  }

  /** A new chunk reads air everywhere. */
  lemma NewChunkIsAir(p: Vec3, x: int, y: int, z: int)
    ensures GetBlock(NewChunk(p), x, y, z) == 0
  {
  }

  /** Reading back a write: the written cell holds the byte conversion of the
      id and every other cell is unchanged; a write out of bounds changes no
      cell. */
  lemma {:induction false} GetAfterSet(c: Chunk, x: int, y: int, z: int, id: int, qx: int, qy: int, qz: int)
    requires c.Valid()
    ensures GetBlock(SetBlock(c, x, y, z, id), qx, qy, qz)
      == if InBounds(x, y, z) && (qx, qy, qz) == (x, y, z) then ToUint8(id) else GetBlock(c, qx, qy, qz)
  {
    if InBounds(x, y, z) && InBounds(qx, qy, qz) {
      IndexInjective(x, y, z, qx, qy, qz);
    }
  }

  /** `isBlockSolid`: the cell's id has a definition whose collider is on. An
      out-of-bounds cell is looked up as id 0. */
  function IsBlockSolid(c: Chunk, index: NumericIndex, x: int, y: int, z: int): (s: bool)
    requires c.Valid()
    ensures s <==> GetBlock(c, x, y, z) in index && index[GetBlock(c, x, y, z)].collider
    ensures !InBounds(x, y, z) ==> (s <==> 0 in index && index[0].collider)
  {
    var id := GetBlock(c, x, y, z);
    id in index && index[id].collider
  }

  /** Where `addBlockInstance` places the visual instance of local cell
      (x, y, z): nowhere when the id has no definition, otherwise at the centre
      of the world cell local + 16 * chunkPosition. */
  function AddBlockInstance(c: Chunk, index: NumericIndex, x: int, y: int, z: int, id: int): (p: Option<Vec3>)
    ensures p.None? <==> id !in index
    ensures p.Some? ==>
      && p.value.x - 0.5 == x as real + c.chunkPosition.x * 16.0
      && p.value.y - 0.5 == y as real + c.chunkPosition.y * 16.0
      && p.value.z - 0.5 == z as real + c.chunkPosition.z * 16.0
  {
    if id !in index then None
    else Some(Vec3(x as real + c.chunkPosition.x * Size as real + 0.5,
                   y as real + c.chunkPosition.y * Size as real + 0.5,
                   z as real + c.chunkPosition.z * Size as real + 0.5))
  }

  /** One `addBlockInstance` call requested by a rebuild. */
  datatype InstanceRequest = InstanceRequest(x: int, y: int, z: int, id: int)

  /** Position of a cell in the rebuild's loop order (x outermost, z innermost). */
  function ScanPos(r: InstanceRequest): int {
    Size * Size * r.x + Size * r.y + r.z
  }

  /** A rebuild requests an instance for cell (x, y, z) with id `id` exactly
      when that cell is in bounds and holds the non-air id `id`. */
  predicate Requested(c: Chunk, r: InstanceRequest)
    requires c.Valid()
  {
    InBounds(r.x, r.y, r.z) && r.id != 0 && r.id == GetBlock(c, r.x, r.y, r.z)
  }

  predicate InScanOrder(rs: seq<InstanceRequest>) {
    forall i, j :: 0 <= i < j < |rs| ==> ScanPos(rs[i]) < ScanPos(rs[j])
  }

  /** The cell loop of `rebuildMesh`: one request per non-air cell, in loop
      order, and `total` counts them. */
  method RebuildMesh(c: Chunk) returns (requests: seq<InstanceRequest>, total: nat)
    requires c.Valid()
    ensures forall r :: r in requests <==> Requested(c, r)
    ensures InScanOrder(requests)
    ensures total == |requests|
  {
    requests := [];
    total := 0;
    var x := 0;
    while x < Size
      invariant 0 <= x <= Size
      invariant Scanned(c, requests, total, Size * Size * x)
    {
      requests, total := RebuildSlice(c, x, requests, total);
      x := x + 1;
    }
  }

  /** The requests so far are exactly those for the cells before loop
      position `p`, in loop order, and `total` counts them. */
  ghost predicate Scanned(c: Chunk, requests: seq<InstanceRequest>, total: nat, p: int)
    requires c.Valid()
  {
    && total == |requests|
    && (forall r :: r in requests <==> Requested(c, r) && ScanPos(r) < p)
    && (forall i :: 0 <= i < |requests| ==> ScanPos(requests[i]) < p)
    && InScanOrder(requests)
  }

  /** The y and z loops of `rebuildMesh` for one x. */
  method RebuildSlice(c: Chunk, x: int, requests0: seq<InstanceRequest>, total0: nat)
    returns (requests: seq<InstanceRequest>, total: nat)
    requires c.Valid() && 0 <= x < Size && Scanned(c, requests0, total0, Size * Size * x)
    ensures Scanned(c, requests, total, Size * Size * (x + 1))
  {
    requests, total := requests0, total0;
    var y := 0;
    while y < Size
      invariant 0 <= y <= Size
      invariant Scanned(c, requests, total, Size * Size * x + Size * y)
    {
      requests, total := RebuildColumn(c, x, y, requests, total);
      y := y + 1;
    }
  }

  /** The z loop of `rebuildMesh` for one x and y. */
  method RebuildColumn(c: Chunk, x: int, y: int, requests0: seq<InstanceRequest>, total0: nat)
    returns (requests: seq<InstanceRequest>, total: nat)
    requires c.Valid() && 0 <= x < Size && 0 <= y < Size
    requires Scanned(c, requests0, total0, Size * Size * x + Size * y)
    ensures Scanned(c, requests, total, Size * Size * x + Size * (y + 1))
  {
    requests, total := requests0, total0;
    var z := 0;
    while z < Size
      invariant 0 <= z <= Size
      invariant Scanned(c, requests, total, Size * Size * x + Size * y + z)
    {
      RebuildStep(c, requests, total, x, y, z);
      var id := GetBlock(c, x, y, z);
      if id != 0 {
        requests := requests + [InstanceRequest(x, y, z, id)];
        total := total + 1;
      }
      z := z + 1;
    }
  }

  /** Visiting one cell extends the scanned prefix by that cell. */
  lemma RebuildStep(c: Chunk, requests: seq<InstanceRequest>, total: nat, x: int, y: int, z: int)
    requires c.Valid() && InBounds(x, y, z) && Scanned(c, requests, total, Size * Size * x + Size * y + z)
    ensures var id := GetBlock(c, x, y, z);
      Scanned(c, if id != 0 then requests + [InstanceRequest(x, y, z, id)] else requests,
              if id != 0 then total + 1 else total, Size * Size * x + Size * y + z + 1)
  {
    var p := Size * Size * x + Size * y + z;
    var id := GetBlock(c, x, y, z);
    var rs := if id != 0 then requests + [InstanceRequest(x, y, z, id)] else requests;
    forall r ensures r in rs <==> Requested(c, r) && ScanPos(r) < p + 1 {
      if Requested(c, r) && ScanPos(r) == p {
        ScanPosUnique(r.x, r.y, r.z, x, y, z);
      }
    }
  }

  /** Loop positions of in-bounds cells are distinct. */
  lemma ScanPosUnique(x: int, y: int, z: int, x': int, y': int, z': int)
    requires InBounds(x, y, z) && InBounds(x', y', z')
    requires Size * Size * x + Size * y + z == Size * Size * x' + Size * y' + z'
    ensures x == x' && y == y' && z == z'
  {
    assert Size * (Size * x + y) + z == Size * (Size * x' + y') + z';
    assert z == z' && Size * x + y == Size * x' + y';
  }

  /** Requests in strict loop order never name the same cell twice, so a
      rebuild places exactly one instance per non-air cell and none for air. */
  lemma {:induction false} RebuildOncePerCell(c: Chunk, requests: seq<InstanceRequest>, x: int, y: int, z: int)
    requires c.Valid()
    requires forall r :: r in requests <==> Requested(c, r)
    requires InScanOrder(requests)
    requires InBounds(x, y, z)
    ensures GetBlock(c, x, y, z) == 0 ==>
      forall i :: 0 <= i < |requests| ==> (requests[i].x, requests[i].y, requests[i].z) != (x, y, z)
    ensures GetBlock(c, x, y, z) != 0 ==>
      exists i :: 0 <= i < |requests| && requests[i] == InstanceRequest(x, y, z, GetBlock(c, x, y, z))
    ensures forall i, j :: 0 <= i < j < |requests| ==>
      (requests[i].x, requests[i].y, requests[i].z) != (requests[j].x, requests[j].y, requests[j].z)
  {
    var id := GetBlock(c, x, y, z);
    if id != 0 {
      assert Requested(c, InstanceRequest(x, y, z, id));
    } else {
      forall i | 0 <= i < |requests|
        ensures (requests[i].x, requests[i].y, requests[i].z) != (x, y, z)
      {
        assert requests[i] in requests;
      }
    }
  }
}
