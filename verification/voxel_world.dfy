/** The sparse world: chunks stored under a "cx,cy,cz" string key, world to
    chunk coordinates by floor division, world to local coordinates by `& 15`,
    and the delegated block and solidity queries. */
module VoxelWorld {
  import opened Common
  import opened VoxelChunk

  const ChunkSize: int := 16

  // ---------------------------------------------------------------------------
  // Chunk keys: the template string `${cx},${cy},${cz}` of integers.

  function DigitChar(d: int): (c: char)
    requires 0 <= d < 10
    ensures '0' <= c <= '9'
  {
    ('0' as int + d) as char
  }

  /** Decimal rendering of a natural number, without leading zeros. */
  function NatToDecimal(n: nat): (s: string)
    ensures |s| >= 1
    ensures forall i :: 0 <= i < |s| ==> '0' <= s[i] <= '9'
    ensures n < 10 <==> |s| == 1
  {
    if n < 10 then [DigitChar(n)] else NatToDecimal(n / 10) + [DigitChar(n % 10)]
  }

  /** JavaScript's rendering of an integer-valued number. */
  function IntToDecimal(i: int): (s: string)
    ensures |s| >= 1 && ',' !in s
    ensures i < 0 <==> s[0] == '-'
  {
    if i < 0 then "-" + NatToDecimal(-i) else NatToDecimal(i)
  }

  lemma {:induction false} NatToDecimalInjective(n: nat, m: nat)
    requires NatToDecimal(n) == NatToDecimal(m)
    ensures n == m
    decreases n
  {
    if n >= 10 && m >= 10 {
      var sn, sm := NatToDecimal(n), NatToDecimal(m);
      assert sn[|sn| - 1] == DigitChar(n % 10);
      assert sm[|sm| - 1] == DigitChar(m % 10);
      assert sn[..|sn| - 1] == NatToDecimal(n / 10);
      assert sm[..|sm| - 1] == NatToDecimal(m / 10);
      NatToDecimalInjective(n / 10, m / 10);
    }
  }

  lemma IntToDecimalInjective(i: int, j: int)
    requires IntToDecimal(i) == IntToDecimal(j)
    ensures i == j
  {
    if i < 0 {
      assert IntToDecimal(i)[1..] == NatToDecimal(-i);
      assert IntToDecimal(j)[1..] == NatToDecimal(-j);
      NatToDecimalInjective(-i, -j);
    } else {
      NatToDecimalInjective(i, j);
    }
  }

  /** `getChunkKey`. */
  function ChunkKey(cx: int, cy: int, cz: int): string {
    IntToDecimal(cx) + "," + IntToDecimal(cy) + "," + IntToDecimal(cz)
  }

  /** A chunk key holds exactly the two separating commas, since no rendered
      coordinate holds one. */
  lemma ChunkKeyCommas(cx: int, cy: int, cz: int)
    ensures multiset(ChunkKey(cx, cy, cz))[','] == 2
  {
    var a, b, c := IntToDecimal(cx), IntToDecimal(cy), IntToDecimal(cz);
    assert ChunkKey(cx, cy, cz) == a + "," + b + "," + c;
    assert multiset(a)[','] == 0 && multiset(b)[','] == 0 && multiset(c)[','] == 0;
  }

  /** Splitting at the first comma: a comma-free head is determined. */
  lemma {:induction false} SplitAtComma(a: string, rest: string, a': string, rest': string)
    requires ',' !in a && ',' !in a'
    requires a + "," + rest == a' + "," + rest'
    ensures a == a' && rest == rest'
  {
    var s := a + "," + rest;
    assert forall i :: 0 <= i < |a| ==> s[i] == a[i] != ',';
    assert forall i :: 0 <= i < |a'| ==> s[i] == a'[i] != ',';
    assert s[|a|] == ',' && s[|a'|] == ',';
    assert |a| == |a'|;
    assert a == s[..|a|] == a';
    assert rest == s[|a| + 1..] == rest';
  }

  /** The key depends only on the triple and distinct triples get distinct
      keys. */
  lemma ChunkKeyInjective(cx: int, cy: int, cz: int, cx': int, cy': int, cz': int)
    requires ChunkKey(cx, cy, cz) == ChunkKey(cx', cy', cz')
    ensures cx == cx' && cy == cy' && cz == cz'
  {
    var a, b, c := IntToDecimal(cx), IntToDecimal(cy), IntToDecimal(cz);
    var a', b', c' := IntToDecimal(cx'), IntToDecimal(cy'), IntToDecimal(cz');
    assert ChunkKey(cx, cy, cz) == a + "," + (b + "," + c);
    assert ChunkKey(cx', cy', cz') == a' + "," + (b' + "," + c');
    SplitAtComma(a, b + "," + c, a', b' + "," + c');
    SplitAtComma(b, c, b', c');
    IntToDecimalInjective(cx, cx');
    IntToDecimalInjective(cy, cy');
    IntToDecimalInjective(cz, cz');
  }

  // ---------------------------------------------------------------------------
  // World to chunk and local coordinates.

  /** `Math.floor(v / 16)`: the chunk coordinate of world coordinate `v`.
      Dafny's `/` by a positive divisor rounds down, as `Math.floor` does. */
  function ChunkCoord(v: int): (c: int)
    ensures ChunkSize * c <= v < ChunkSize * c + ChunkSize
  {
    v / ChunkSize
  }

  /** The 32-bit two's-complement pattern `ToInt32` gives `v`, read unsigned. */
  function Uint32Bits(v: int): (u: nat)
    ensures u < 0x1_0000_0000
  {
    v % 0x1_0000_0000
  }

  /** Bitwise AND of the low `n` bits of `a` and `b`. */
  function AndBits(a: nat, b: nat, n: nat): nat
    decreases n
  {
    if n == 0 then 0
    else 2 * AndBits(a / 2, b / 2, n - 1) + (if a % 2 == 1 && b % 2 == 1 then 1 else 0)
  }

  /** `v & (CHUNK_SIZE - 1)`, that is `v & 15` on the int32 of `v`. */
  function LocalCoord(v: int): (l: int)
    ensures l == v % ChunkSize
  {
    MaskIsRemainder(v);
    AndBits(Uint32Bits(v), 15, 32)
  }

  lemma {:induction false} AndBitsZero(a: nat, n: nat)
    ensures AndBits(a, 0, n) == 0
    decreases n
  {
    if n > 0 { AndBitsZero(a / 2, n - 1); }
  }

  lemma HalfMod(a: nat, m: nat)
    requires m > 0
    ensures a % (2 * m) == 2 * ((a / 2) % m) + a % 2
  {
    var h := a / 2;
    assert a == 2 * h + a % 2;
    assert h == m * (h / m) + h % m;
    assert a == (2 * m) * (h / m) + (2 * (h % m) + a % 2);
    DivModUnique(a, 2 * m, h / m, 2 * (h % m) + a % 2);
  }

  /** Masking with 15 keeps the remainder by 16. */
  lemma {:induction false} AndBits15(a: nat, n: nat)
    requires n >= 4
    ensures AndBits(a, 15, n) == a % 16
  {
    var a1 := a / 2;
    var a2 := a1 / 2;
    var a3 := a2 / 2;
    AndBitsZero(a3 / 2, n - 4);
    assert AndBits(a3, 1, n - 3) == a3 % 2;
    HalfMod(a2, 2);
    assert AndBits(a2, 3, n - 2) == a2 % 4;
    HalfMod(a1, 4);
    assert AndBits(a1, 7, n - 1) == a1 % 8;
    HalfMod(a, 8);
  }

  /** The local coordinate lies in [0, 16) and, with the floor-divided chunk
      coordinate, reconstructs the world coordinate: `v & 15` is the
      non-negative remainder by 16 for every integer, negatives included. */
  lemma LocalCoordDecomposes(v: int)
    ensures LocalCoord(v) == v % ChunkSize
    ensures 0 <= LocalCoord(v) < ChunkSize
    ensures v == ChunkSize * ChunkCoord(v) + LocalCoord(v)
  {
  }

  /** Masking the 32-bit pattern of v with 15 gives v's remainder by 16:
      wrapping to 32 bits removes a multiple of 16. */
  lemma MaskIsRemainder(v: int)
    ensures AndBits(Uint32Bits(v), 15, 32) == v % ChunkSize
  {
    var u := Uint32Bits(v);
    AndBits15(u, 32);
    var q := v / 0x1_0000_0000;
    assert v == 16 * (0x1000_0000 * q + u / 16) + u % 16;
    DivModUnique(v, 16, 0x1000_0000 * q + u / 16, u % 16);
  }

  /** A decomposition into a multiple of 16 and an offset in [0, 16) is the
      floor division's. */
  lemma FloorUnique(v: int, c: int, l: int)
    requires 0 <= l < ChunkSize && v == ChunkSize * c + l
    ensures ChunkCoord(v) == c && v % ChunkSize == l
  {
    DivModUnique(v, ChunkSize, c, l);
  }

  /** World coordinate 16c + l, for an offset l in [0, 16), lies in chunk c at
      local coordinate l. */
  lemma WorldCoordSplits(c: int, l: int)
    requires 0 <= l < ChunkSize
    ensures ChunkCoord(ChunkSize * c + l) == c && LocalCoord(ChunkSize * c + l) == l
  {
    FloorUnique(ChunkSize * c + l, c, l);
    LocalOfSplit(c, l);
  }

  lemma LocalOfSplit(c: int, l: int)
    requires 0 <= l < ChunkSize
    ensures LocalCoord(ChunkSize * c + l) == l
  {
    var v := ChunkSize * c + l;
    var u := Uint32Bits(v);
    AndBits15(u, 32);
    var q := v / 0x1_0000_0000;
    assert v == 16 * (0x1000_0000 * q + u / 16) + u % 16;
    DivModUnique(v, 16, 0x1000_0000 * q + u / 16, u % 16);
    DivModUnique(v, 16, c, l);
  }

  /** The floor semantics on the boundary cases. */
  lemma ChunkCoordExamples()
    ensures ChunkCoord(-1) == -1 && ChunkCoord(15) == 0 && ChunkCoord(16) == 1
    ensures LocalCoord(-1) == 15
  {
    LocalCoordDecomposes(-1);
  }

  // ---------------------------------------------------------------------------
  // The world.

  datatype World = World(chunks: map<string, Chunk>)
  {
    predicate Valid() { forall k :: k in chunks ==> chunks[k].Valid() }
  }

  function EmptyWorld(): (w: World)
    ensures w.Valid() && w.chunks == map[]
  {
    World(map[])
  }

  /** The chunk stored under the key of chunk coordinates (cx, cy, cz). */
  function ChunkAt(w: World, cx: int, cy: int, cz: int): Option<Chunk> {
    var key := ChunkKey(cx, cy, cz);
    if key in w.chunks then Some(w.chunks[key]) else None
  }

  /** `addChunk`: stores the chunk under the key, replacing any chunk there,
      without comparing it to the chunk's own position. Every other chunk
      coordinate keeps its chunk. */
  function AddChunk(w: World, chunk: Chunk, cx: int, cy: int, cz: int): (r: World)
    requires w.Valid() && chunk.Valid()
    ensures r.Valid()
    ensures ChunkAt(r, cx, cy, cz) == Some(chunk)
    ensures forall a, b, c :: ChunkAt(r, a, b, c) != ChunkAt(w, a, b, c) ==> (a, b, c) == (cx, cy, cz)
  {
    var r := World(w.chunks[ChunkKey(cx, cy, cz) := chunk]);
    assert forall a, b, c :: ChunkAt(r, a, b, c) != ChunkAt(w, a, b, c) ==> (a, b, c) == (cx, cy, cz) by {
      forall a, b, c | ChunkAt(r, a, b, c) != ChunkAt(w, a, b, c)
        ensures (a, b, c) == (cx, cy, cz)
      {
        if ChunkKey(a, b, c) == ChunkKey(cx, cy, cz) {
          ChunkKeyInjective(a, b, c, cx, cy, cz);
        }
      }
    }
    r
  }

  /** `getChunkAtWorld`. */
  function GetChunkAtWorld(w: World, x: int, y: int, z: int): (r: Option<Chunk>)
    ensures r == ChunkAt(w, ChunkCoord(x), ChunkCoord(y), ChunkCoord(z))
  {
    var key := ChunkKey(ChunkCoord(x), ChunkCoord(y), ChunkCoord(z));
    if key in w.chunks then Some(w.chunks[key]) else None
  }

  /** `getBlock`: air without an owning chunk, else the owning chunk's block at
      the local coordinates. */
  function GetBlock(w: World, x: int, y: int, z: int): (b: Byte)
    requires w.Valid()
    ensures GetChunkAtWorld(w, x, y, z).None? ==> b == 0
  {
    match GetChunkAtWorld(w, x, y, z)
    case None => 0
    case Some(chunk) => VoxelChunk.GetBlock(chunk, LocalCoord(x), LocalCoord(y), LocalCoord(z))
  }

  /** A world cell is read from the chunk at its floor-divided coordinates, at
      the offset that, added to 16 times those coordinates, gives the cell. */
  lemma {:induction false} GetBlockDelegates(w: World, cx: int, cy: int, cz: int, lx: int, ly: int, lz: int)
    requires w.Valid() && InBounds(lx, ly, lz)
    ensures var x, y, z := ChunkSize * cx + lx, ChunkSize * cy + ly, ChunkSize * cz + lz;
      GetBlock(w, x, y, z) == match ChunkAt(w, cx, cy, cz)
        case None => 0
        case Some(chunk) => VoxelChunk.GetBlock(chunk, lx, ly, lz)
  {
    WorldCoordSplits(cx, lx);
    WorldCoordSplits(cy, ly);
    WorldCoordSplits(cz, lz);
  }

  /** `isBlockSolid`: false for air, else the id's definition decides. */
  function IsBlockSolid(w: World, index: NumericIndex, x: int, y: int, z: int): (s: bool)
    requires w.Valid()
    ensures s ==> GetBlock(w, x, y, z) != 0
    ensures s <==> GetBlock(w, x, y, z) != 0 && GetBlock(w, x, y, z) in index
                   && index[GetBlock(w, x, y, z)].collider
  {
    var id := GetBlock(w, x, y, z);
    if id == 0 then false else id in index && index[id].collider
  }

  /** No cell outside every registered chunk is solid. */
  lemma NoChunkNotSolid(w: World, index: NumericIndex, x: int, y: int, z: int)
    requires w.Valid() && GetChunkAtWorld(w, x, y, z).None?
    ensures !IsBlockSolid(w, index, x, y, z)
  {
  }

  /** When air (id 0) is not a collider, the world's solidity test agrees with
      the owning chunk's own test at the local coordinates. The world's extra
      air check matters only for a catalogue that makes id 0 a collider. */
  lemma SolidAgreesWithChunk(w: World, index: NumericIndex, x: int, y: int, z: int)
    requires w.Valid()
    requires 0 in index ==> !index[0].collider
    ensures IsBlockSolid(w, index, x, y, z) <==>
      match GetChunkAtWorld(w, x, y, z)
      case None => false
      case Some(chunk) => VoxelChunk.IsBlockSolid(chunk, index, LocalCoord(x), LocalCoord(y), LocalCoord(z))
  {
  }
}
