/** The physics collider grid: every frame the player's cell is computed, and
    when it changed, the set of box colliders is reconciled with the solid
    cells in a window around the player, reusing the colliders of cells that
    stay and releasing the rest. */
module PhysicsGrid {
  import opened Common
  import VoxelWorld

  /** A box collider. `generation` numbers the update that created it, which
      tells a reused collider from a new one at the same cell. */
  datatype Collider = Collider(cell: Cell, position: Vec3, generation: nat)

  /** The manager. The source keys its map by the string "x,y,z"; distinct
      cells have distinct keys (`KeysIdentifyCells`), so the map is keyed by
      cell here. `lastCell` is absent before the first update, where the
      source holds a NaN vector that equals no cell. */
  datatype Manager = Manager(
    blockSize: real,
    radius: int,
    height: int,
    grid: map<Cell, Collider>,
    lastCell: Option<Cell>,
    generation: nat)

  /** The constructor; the source's defaults are block size 1, radius 6 and
      height 3. */
  function NewManager(blockSize: real, radius: int, height: int): (m: Manager)
    ensures m.grid == map[] && m.lastCell.None?
  {
    Manager(blockSize, radius, height, map[], None, 0)
  }

  /** The key strings of two cells agree exactly when the cells do. */
  lemma KeysIdentifyCells(a: Cell, b: Cell)
    ensures VoxelWorld.ChunkKey(a.x, a.y, a.z) == VoxelWorld.ChunkKey(b.x, b.y, b.z) <==> a == b
  {
    if VoxelWorld.ChunkKey(a.x, a.y, a.z) == VoxelWorld.ChunkKey(b.x, b.y, b.z) {
      VoxelWorld.ChunkKeyInjective(a.x, a.y, a.z, b.x, b.y, b.z);
    }
  }

  /** `toCellCoord`: the floor of each coordinate over the block size. */
  function ToCellCoord(p: Vec3, blockSize: real): (c: Cell)
    requires blockSize > 0.0
    ensures c.x as real * blockSize <= p.x < (c.x + 1) as real * blockSize
    ensures c.y as real * blockSize <= p.y < (c.y + 1) as real * blockSize
    ensures c.z as real * blockSize <= p.z < (c.z + 1) as real * blockSize
  {
    var c := Cell((p.x / blockSize).Floor, (p.y / blockSize).Floor, (p.z / blockSize).Floor);
    FloorScaled(p.x, blockSize);
    FloorScaled(p.y, blockSize);
    FloorScaled(p.z, blockSize);
    c
  }

  lemma FloorScaled(v: real, b: real)
    requires b > 0.0
    ensures (v / b).Floor as real * b <= v
    ensures v < ((v / b).Floor + 1) as real * b
  {
    var q := v / b;
    var f := q.Floor as real;
    assert q * b == v;
    assert q < f + 1.0;
    var g := f + 1.0 - q;
    assert g * b > 0.0;
    assert (f + 1.0) * b == q * b + g * b;
    assert v < (f + 1.0) * b;
    assert ((v / b).Floor + 1) as real == f + 1.0;
    assert (q - f) * b >= 0.0;
    assert f * b == q * b - (q - f) * b;
  }

  /** Where a new collider for cell c is placed. */
  function Position(c: Cell, blockSize: real): (p: Vec3)
    ensures blockSize > 0.0 ==> ToCellCoord(p, blockSize) == c
  {
    CornerFloors(c.x, blockSize);
    CornerFloors(c.y, blockSize);
    CornerFloors(c.z, blockSize);
    Vec3(Corner(c.x, blockSize), Corner(c.y, blockSize), Corner(c.z, blockSize))
  }

  /** The world coordinate `k * blockSize` of cell index k. */
  function Corner(k: int, blockSize: real): real {
    k as real * blockSize
  }

  /** A whole multiple of a positive block size floors back to its
      multiplier. */
  lemma CornerFloors(k: int, b: real)
    ensures b > 0.0 ==> (Corner(k, b) / b).Floor == k
  {
    if b > 0.0 {
      assert (k as real * b) / b == k as real;
    }
  }

  /** The cells the update visits around the player's cell: within the radius
      in x and z, and at absolute heights 0 to height - 1. */
  predicate InWindow(centre: Cell, radius: int, height: int, c: Cell) {
    centre.x - radius <= c.x <= centre.x + radius && centre.z - radius <= c.z <= centre.z + radius && 0 <= c.y < height
  }

  function Window(centre: Cell, radius: int, height: int): (s: set<Cell>)
    ensures forall c :: c in s <==> InWindow(centre, radius, height, c)
  {
    var s := set x, y, z | centre.x - radius <= x <= centre.x + radius && 0 <= y < height
                           && centre.z - radius <= z <= centre.z + radius :: Cell(x, y, z);
    assert forall c :: InWindow(centre, radius, height, c) ==> Cell(c.x, c.y, c.z) in s;
    s
  }

  /** `update`: returns the manager afterwards and the colliders it
      released. An unchanged player cell does nothing. Otherwise the grid
      holds exactly the solid cells of the window; a cell that was already
      held keeps its collider, a new one gets a fresh collider at its
      position, and every held cell that left the set is released. */
  function Update(m: Manager, playerPosition: Vec3, isBlockSolid: (int, int, int) -> bool): (r: (Manager, map<Cell, Collider>))
    requires m.blockSize > 0.0
    ensures var pc := ToCellCoord(playerPosition, m.blockSize);
      && (m.lastCell == Some(pc) ==> r == (m, map[]))
      && (m.lastCell != Some(pc) ==>
            && r.0 == m.(grid := r.0.grid, lastCell := Some(pc), generation := m.generation + 1)
            && (forall c :: c in r.0.grid <==> InWindow(pc, m.radius, m.height, c) && isBlockSolid(c.x, c.y, c.z))
            && (forall c :: c in r.0.grid && c in m.grid ==> r.0.grid[c] == m.grid[c])
            && (forall c :: c in r.0.grid && c !in m.grid ==>
                  r.0.grid[c] == Collider(c, Position(c, m.blockSize), m.generation))
            && (forall c :: c in r.1 <==> c in m.grid && c !in r.0.grid)
            && (forall c :: c in r.1 ==> r.1[c] == m.grid[c]))
  {
    var pc := ToCellCoord(playerPosition, m.blockSize);
    if m.lastCell == Some(pc) then (m, map[])
    else
      var newGrid := map c | c in Window(pc, m.radius, m.height) && isBlockSolid(c.x, c.y, c.z) ::
        if c in m.grid then m.grid[c] else Collider(c, Position(c, m.blockSize), m.generation);
      var released := map c | c in m.grid && c !in newGrid :: m.grid[c];
      (m.(grid := newGrid, lastCell := Some(pc), generation := m.generation + 1), released)
  }

  /** `dispose`: every collider is released and the grid is emptied; the last
      cell is kept. */
  function Dispose(m: Manager): (r: (Manager, map<Cell, Collider>))
    ensures r.0 == m.(grid := map[]) && r.1 == m.grid
  {
    (m.(grid := map[]), m.grid)
  }

  /** Every collider sits at its own cell's position and was made by an
      earlier update. */
  predicate Consistent(m: Manager) {
    forall c :: c in m.grid ==>
      m.grid[c].cell == c && m.grid[c].position == Position(c, m.blockSize) && m.grid[c].generation < m.generation
  }

  lemma NewManagerConsistent(blockSize: real, radius: int, height: int)
    ensures Consistent(NewManager(blockSize, radius, height))
  {
  }

  /** Updates keep the grid consistent, and a collider created by an update
      is none of the colliders held before it. */
  lemma UpdatePreservesConsistent(m: Manager, playerPosition: Vec3, isBlockSolid: (int, int, int) -> bool)
    requires m.blockSize > 0.0 && Consistent(m)
    ensures Consistent(Update(m, playerPosition, isBlockSolid).0)
    ensures var g := Update(m, playerPosition, isBlockSolid).0.grid;
      forall c, d :: c in g && c !in m.grid && d in m.grid ==> g[c] != m.grid[d]
  {
  }

  lemma DisposePreservesConsistent(m: Manager)
    requires Consistent(m)
    ensures Consistent(Dispose(m).0)
  {
  }

  /** A second update from the same cell changes nothing. */
  lemma UpdateIdempotent(m: Manager, playerPosition: Vec3, isBlockSolid: (int, int, int) -> bool)
    requires m.blockSize > 0.0
    ensures var m1 := Update(m, playerPosition, isBlockSolid).0;
      Update(m1, playerPosition, isBlockSolid) == (m1, map[])
  {
  }

  /** The first update always rebuilds the grid. */
  lemma FirstUpdateRebuilds(blockSize: real, radius: int, height: int, playerPosition: Vec3,
                            isBlockSolid: (int, int, int) -> bool)
    requires blockSize > 0.0
    ensures var pc := ToCellCoord(playerPosition, blockSize);
      Update(NewManager(blockSize, radius, height), playerPosition, isBlockSolid).0.lastCell == Some(pc)
  {
  }

  /** `dispose` keeps the last cell, so an update from that same cell right
      after it finds nothing to do and leaves the grid empty even when solid
      cells surround the player. */
  lemma DisposeThenSameCellStaysEmpty(m: Manager, playerPosition: Vec3, isBlockSolid: (int, int, int) -> bool)
    requires m.blockSize > 0.0 && m.lastCell == Some(ToCellCoord(playerPosition, m.blockSize))
    ensures Update(Dispose(m).0, playerPosition, isBlockSolid).0.grid == map[]
  {
  }
}
