/** The cloud layer: a 64 x 64 cell grid seeded at random, smoothed by three
    steps of a cellular automaton, turned into one mesh of box faces with the
    faces between neighbouring cloud cells left out, and drifted along +x with
    wrap-around. Only one cloud layer exists at a time. */
module Clouds {
  import opened Common
  import opened Quads

  const GridWidth: int := 64
  const GridDepth: int := 64
  const CellSize: int := 4
  const CloudHeight: real := 50.0
  const Speed: real := 0.01
  const Range: real := 200.0

  /** The probability threshold of the random seeding. */
  const SeedThreshold: real := 0.45

  /** `grid[x][z]`, 1 for a cloud cell. */
  type Grid = seq<seq<int>>

  predicate IsGrid(g: Grid) {
    |g| == GridWidth && forall x :: 0 <= x < |g| ==> |g[x]| == GridDepth
  }

  predicate IsBinary(g: Grid) {
    forall x, z :: 0 <= x < |g| && 0 <= z < |g[x]| ==> g[x][z] == 0 || g[x][z] == 1
  }

  /** The seeding: a cell is cloud when its random draw is below 0.45. The
      draws are a parameter; the source takes them from `Math.random`. */
  function SeedGrid(draws: seq<seq<real>>): (g: Grid)
    requires |draws| == GridWidth && forall x :: 0 <= x < |draws| ==> |draws[x]| == GridDepth
    ensures IsGrid(g) && IsBinary(g)
    ensures forall x, z :: 0 <= x < GridWidth && 0 <= z < GridDepth ==> (g[x][z] == 1 <==> draws[x][z] < SeedThreshold)
  {
    seq(GridWidth, x requires 0 <= x < GridWidth =>
      seq(GridDepth, z requires 0 <= z < GridDepth => if draws[x][z] < SeedThreshold then 1 else 0))
  }

  /** 1 when (x, z) is a cloud cell of the grid, 0 when it is not or lies
      outside. */
  function Live(g: Grid, x: int, z: int): (n: int)
    requires IsGrid(g)
    ensures n == 0 || n == 1
  {
    if 0 <= x < GridWidth && 0 <= z < GridDepth && g[x][z] == 1 then 1 else 0
  }

  /** The reference count: the cloud cells among the eight surrounding cells. */
  function CountAlive(g: Grid, x: int, z: int): int
    requires IsGrid(g)
  {
    Live(g, x - 1, z - 1) + Live(g, x - 1, z) + Live(g, x - 1, z + 1)
    + Live(g, x, z - 1) + Live(g, x, z + 1)
    + Live(g, x + 1, z - 1) + Live(g, x + 1, z) + Live(g, x + 1, z + 1)
  }

  /** The cell at offset (dx, dz) as the loop counts it: the centre never. */
  function Contribution(g: Grid, x: int, z: int, dx: int, dz: int): int
    requires IsGrid(g)
  {
    if dx == 0 && dz == 0 then 0 else Live(g, x + dx, z + dz)
  }

  /** What the inner loop has counted in row `dx` before reaching `dz`. */
  function RowCounted(g: Grid, x: int, z: int, dx: int, dz: int): int
    requires IsGrid(g) && -1 <= dz
    decreases dz
  {
    if dz == -1 then 0 else RowCounted(g, x, z, dx, dz - 1) + Contribution(g, x, z, dx, dz - 1)
  }

  /** What the outer loop has counted in the rows before `dx`. */
  function RowsCounted(g: Grid, x: int, z: int, dx: int): int
    requires IsGrid(g) && -1 <= dx
    decreases dx
  {
    if dx == -1 then 0 else RowsCounted(g, x, z, dx - 1) + RowCounted(g, x, z, dx - 1, 2)
  }

  /** Counting row by row, skipping the centre, gives the reference count. */
  lemma RowsCountAll(g: Grid, x: int, z: int)
    requires IsGrid(g)
    ensures RowsCounted(g, x, z, 2) == CountAlive(g, x, z)
  {
    assert RowCounted(g, x, z, -1, 2) == Live(g, x - 1, z - 1) + Live(g, x - 1, z) + Live(g, x - 1, z + 1);
    assert RowCounted(g, x, z, 0, 2) == Live(g, x, z - 1) + Live(g, x, z + 1);
    assert RowCounted(g, x, z, 1, 2) == Live(g, x + 1, z - 1) + Live(g, x + 1, z) + Live(g, x + 1, z + 1);
    assert RowsCounted(g, x, z, 0) == RowCounted(g, x, z, -1, 2);
    assert RowsCounted(g, x, z, 1) == RowsCounted(g, x, z, 0) + RowCounted(g, x, z, 0, 2);
  }

  /** `countAliveNeighbors`: the two offset loops, the centre skipped and
      cells outside the grid ignored. */
  method CountAliveNeighbors(g: Grid, x: int, z: int) returns (count: int)
    requires IsGrid(g)
    ensures count == CountAlive(g, x, z)
    ensures 0 <= count <= 8
  {
    count := 0;
    var dx := -1;
    while dx <= 1
      invariant -1 <= dx <= 2
      invariant count == RowsCounted(g, x, z, dx)
    {
      var dz := -1;
      while dz <= 1
        invariant -1 <= dz <= 2
        invariant count == RowsCounted(g, x, z, dx) + RowCounted(g, x, z, dx, dz)
      {
        if !(dx == 0 && dz == 0) {
          var nx, nz := x + dx, z + dz;
          if nx >= 0 && nx < GridWidth && nz >= 0 && nz < GridDepth {
            if g[nx][nz] == 1 {
              count := count + 1;
            }
          }
        }
        dz := dz + 1;
      }
      dx := dx + 1;
    }
    RowsCountAll(g, x, z);
  }

  /** The automaton rule: a cloud cell survives with at least four cloud
      neighbours, any other cell becomes cloud with at least five. */
  function NextCell(cell: int, neighbours: int): (r: int)
    ensures r == 0 || r == 1
    ensures cell == 1 ==> (r == 1 <==> neighbours >= 4)
    ensures cell != 1 ==> (r == 1 <==> neighbours >= 5)
  {
    if cell == 1 then (if neighbours >= 4 then 1 else 0) else (if neighbours >= 5 then 1 else 0)
  }

  /** One synchronous smoothing step: every cell's neighbours are read from
      the grid before the step. */
  function Step(g: Grid): (r: Grid)
    requires IsGrid(g)
    ensures IsGrid(r) && IsBinary(r)
  {
    seq(GridWidth, x requires 0 <= x < GridWidth =>
      seq(GridDepth, z requires 0 <= z < GridDepth => NextCell(g[x][z], CountAlive(g, x, z))))
  }

  /** Three smoothing steps. */
  function Smooth(g: Grid): (r: Grid)
    requires IsGrid(g)
    ensures IsGrid(r) && IsBinary(r)
  {
    Step(Step(Step(g)))
  }

  /** One row of the step: the cells of row x before z already hold their new
      value, the rest still hold the copy's. */
  method StepRow(g: Grid, newGrid0: Grid, x: int) returns (newGrid: Grid)
    requires IsGrid(g) && IsGrid(newGrid0) && 0 <= x < GridWidth
    requires newGrid0[x] == g[x]
    ensures IsGrid(newGrid) && newGrid[x] == Step(g)[x]
    ensures forall a :: 0 <= a < GridWidth && a != x ==> newGrid[a] == newGrid0[a]
  {
    newGrid := newGrid0;
    var z := 0;
    while z < GridDepth
      invariant 0 <= z <= GridDepth
      invariant IsGrid(newGrid)
      invariant forall a :: 0 <= a < GridWidth && a != x ==> newGrid[a] == newGrid0[a]
      invariant forall b :: 0 <= b < z ==> newGrid[x][b] == Step(g)[x][b]
      invariant forall b :: z <= b < GridDepth ==> newGrid[x][b] == g[x][b]
    {
      var neighbours := CountAliveNeighbors(g, x, z);
      var cell := if g[x][z] == 1 then (if neighbours >= 4 then 1 else 0) else (if neighbours >= 5 then 1 else 0);
      newGrid := newGrid[x := newGrid[x][z := cell]];
      z := z + 1;
    }
    assert newGrid[x] == Step(g)[x];
  }

  /** The step loop of `spawnOptimizedClouds`: a copy of the grid is
      overwritten cell by cell while the neighbours are counted in the
      original. */
  method SmoothStep(g: Grid) returns (newGrid: Grid)
    requires IsGrid(g)
    ensures newGrid == Step(g)
  {
    newGrid := g;
    var x := 0;
    while x < GridWidth
      invariant 0 <= x <= GridWidth
      invariant IsGrid(newGrid)
      invariant forall a :: 0 <= a < x ==> newGrid[a] == Step(g)[a]
      invariant forall a :: x <= a < GridWidth ==> newGrid[a] == g[a]
    {
      newGrid := StepRow(g, newGrid, x);
      x := x + 1;
    }
    assert newGrid == Step(g);
  }

  /** `n` smoothing steps. */
  function Steps(g: Grid, n: nat): (r: Grid)
    requires IsGrid(g)
    ensures IsGrid(r)
  {
    if n == 0 then g else Step(Steps(g, n - 1))
  }

  /** The three rounds of `spawnOptimizedClouds`, each replacing the grid by
      its smoothed copy. */
  method SmoothGrid(g: Grid) returns (grid: Grid)
    requires IsGrid(g)
    ensures grid == Smooth(g)
  {
    grid := g;
    var step := 0;
    while step < 3
      invariant 0 <= step <= 3 && grid == Steps(g, step)
    {
      grid := SmoothStep(grid);
      step := step + 1;
    }
    assert Steps(g, 3) == Step(Steps(g, 2)) && Steps(g, 2) == Step(Steps(g, 1)) && Steps(g, 1) == Step(g);
  }

  /** A step reads only the 3 x 3 block around each cell: grids that agree
      there agree on the cell's next value. */
  lemma StepIsLocal(g: Grid, h: Grid, x: int, z: int)
    requires IsGrid(g) && IsGrid(h) && 0 <= x < GridWidth && 0 <= z < GridDepth
    requires forall a, b ::
      (x - 1 <= a <= x + 1 && z - 1 <= b <= z + 1 && 0 <= a < GridWidth && 0 <= b < GridDepth) ==> g[a][b] == h[a][b]
    ensures Step(g)[x][z] == Step(h)[x][z]
  {
    assert CountAlive(g, x, z) == CountAlive(h, x, z);
  }

  /** A clear sky stays clear. */
  lemma EmptyGridStaysEmpty(g: Grid)
    requires IsGrid(g) && forall x, z :: 0 <= x < GridWidth && 0 <= z < GridDepth ==> g[x][z] == 0
    ensures forall x, z :: 0 <= x < GridWidth && 0 <= z < GridDepth ==> Step(g)[x][z] == 0
  {
    forall x, z | 0 <= x < GridWidth && 0 <= z < GridDepth ensures Step(g)[x][z] == 0 {
      assert CountAlive(g, x, z) == 0;
    }
  }

  /** A fully clouded grid loses its corners, which have only three
      neighbours, and keeps its edges, which have five. */
  lemma FullGridErodesCorners(g: Grid)
    requires IsGrid(g) && forall x, z :: 0 <= x < GridWidth && 0 <= z < GridDepth ==> g[x][z] == 1
    ensures Step(g)[0][0] == 0 && Step(g)[63][63] == 0
    ensures forall z :: 1 <= z < GridDepth - 1 ==> Step(g)[0][z] == 1
  {
    assert CountAlive(g, 0, 0) == 3;
    assert CountAlive(g, 63, 63) == 3;
    forall z | 1 <= z < GridDepth - 1 ensures Step(g)[0][z] == 1 {
      assert CountAlive(g, 0, z) == 5;
    }
  }

  /** The faces of a cloud cell's box. */
  datatype Side = Right | Left | Front | Back | Top | Bottom
  {
    function Normal(): Vec3 {
      match this
      case Right => Vec3(1.0, 0.0, 0.0)
      case Left => Vec3(-1.0, 0.0, 0.0)
      case Front => Vec3(0.0, 0.0, 1.0)
      case Back => Vec3(0.0, 0.0, -1.0)
      case Top => Vec3(0.0, 1.0, 0.0)
      case Bottom => Vec3(0.0, -1.0, 0.0)
    }
  }

  predicate Cloud(g: Grid, x: int, z: int)
    requires IsGrid(g)
  {
    Live(g, x, z) == 1
  }

  /** The faces a cell contributes, in the order they are added: a side face
      only where the neighbour that way is not cloud (the grid edge counts as
      not cloud), then always the top and the bottom. */
  function CellSides(g: Grid, x: int, z: int): (sides: seq<Side>)
    requires IsGrid(g) && 0 <= x < GridWidth && 0 <= z < GridDepth
    ensures g[x][z] != 1 ==> sides == []
    ensures g[x][z] == 1 ==> 2 <= |sides| <= 6 && sides[|sides| - 2..] == [Top, Bottom]
    ensures Right in sides <==> g[x][z] == 1 && !Cloud(g, x + 1, z)
    ensures Left in sides <==> g[x][z] == 1 && !Cloud(g, x - 1, z)
    ensures Front in sides <==> g[x][z] == 1 && !Cloud(g, x, z + 1)
    ensures Back in sides <==> g[x][z] == 1 && !Cloud(g, x, z - 1)
    ensures Top in sides <==> g[x][z] == 1
    ensures Bottom in sides <==> g[x][z] == 1
  {
    if g[x][z] != 1 then []
    else
      var hasLeft := x > 0 && g[x - 1][z] == 1;
      var hasRight := x < GridWidth - 1 && g[x + 1][z] == 1;
      var hasBack := z > 0 && g[x][z - 1] == 1;
      var hasFront := z < GridDepth - 1 && g[x][z + 1] == 1;
      assert hasRight == Cloud(g, x + 1, z) && hasLeft == Cloud(g, x - 1, z);
      assert hasFront == Cloud(g, x, z + 1) && hasBack == Cloud(g, x, z - 1);
      OpenSides(hasRight, hasLeft, hasFront, hasBack) + [Top, Bottom]
  }

  /** The side faces left open by the four neighbours, in the order right,
      left, front, back. */
  function OpenSides(hasRight: bool, hasLeft: bool, hasFront: bool, hasBack: bool): (open: seq<Side>)
    ensures |open| <= 4
    ensures Right in open <==> !hasRight
    ensures Left in open <==> !hasLeft
    ensures Front in open <==> !hasFront
    ensures Back in open <==> !hasBack
    ensures Top !in open && Bottom !in open
  {
    var open := IfOpen(!hasRight, Right) + IfOpen(!hasLeft, Left) + IfOpen(!hasFront, Front) + IfOpen(!hasBack, Back);
    assert forall t :: t in open <==>
      (t == Right && !hasRight) || (t == Left && !hasLeft) || (t == Front && !hasFront) || (t == Back && !hasBack);
    open
  }

  /** A side face, when its neighbour leaves it open. */
  function IfOpen(open: bool, s: Side): (r: seq<Side>)
    ensures |r| <= 1
    ensures forall t :: t in r <==> open && t == s
  {
    if open then [s] else []
  }

  /** A lone cloud cell is a full box; one closed in on all four sides shows
      only its top and bottom. */
  lemma SideCounts(g: Grid, x: int, z: int)
    requires IsGrid(g) && 0 <= x < GridWidth && 0 <= z < GridDepth && g[x][z] == 1
    ensures !Cloud(g, x - 1, z) && !Cloud(g, x + 1, z) && !Cloud(g, x, z - 1) && !Cloud(g, x, z + 1)
      ==> |CellSides(g, x, z)| == 6
    ensures Cloud(g, x - 1, z) && Cloud(g, x + 1, z) && Cloud(g, x, z - 1) && Cloud(g, x, z + 1)
      ==> CellSides(g, x, z) == [Top, Bottom]
  {
  }

  /** The four corners of a face of the box of cell (x, z), centred at
      ((x - 32) * 4, 50, (z - 32) * 4) with half-size 2. */
  function SideCorners(x: int, z: int, side: Side): (corners: seq<Vec3>)
    ensures |corners| == 4
  {
    var worldX := ((x - GridWidth / 2) * CellSize) as real;
    var worldZ := ((z - GridDepth / 2) * CellSize) as real;
    var half := CellSize as real / 2.0;
    var px, nx := worldX + half, worldX - half;
    var py, ny := CloudHeight + half, CloudHeight - half;
    var pz, nz := worldZ + half, worldZ - half;
    match side
    case Right => [Vec3(px, ny, nz), Vec3(px, ny, pz), Vec3(px, py, pz), Vec3(px, py, nz)]
    case Left => [Vec3(nx, ny, pz), Vec3(nx, ny, nz), Vec3(nx, py, nz), Vec3(nx, py, pz)]
    case Front => [Vec3(nx, ny, pz), Vec3(px, ny, pz), Vec3(px, py, pz), Vec3(nx, py, pz)]
    case Back => [Vec3(px, ny, nz), Vec3(nx, ny, nz), Vec3(nx, py, nz), Vec3(px, py, nz)]
    case Top => [Vec3(nx, py, nz), Vec3(px, py, nz), Vec3(px, py, pz), Vec3(nx, py, pz)]
    case Bottom => [Vec3(nx, ny, pz), Vec3(px, ny, pz), Vec3(px, ny, nz), Vec3(nx, ny, nz)]
  }

  /** Every corner of a face lies on the face's own side of the cell's box,
      half a cell from its centre along the face's normal. */
  lemma SideCornersFaceOutward(x: int, z: int, side: Side)
    ensures var cx, cz := ((x - GridWidth / 2) * CellSize) as real, ((z - GridDepth / 2) * CellSize) as real;
      forall i :: 0 <= i < 4 ==>
        var p := SideCorners(x, z, side)[i];
        && (side == Right ==> p.x == cx + 2.0)
        && (side == Left ==> p.x == cx - 2.0)
        && (side == Front ==> p.z == cz + 2.0)
        && (side == Back ==> p.z == cz - 2.0)
        && (side == Top ==> p.y == CloudHeight + 2.0)
        && (side == Bottom ==> p.y == CloudHeight - 2.0)
  {
  }

  /** `addFace` for each of the given sides: the base index is the number of
      vertices already in the buffers. */
  function AddSides(b: Buffers, x: int, z: int, sides: seq<Side>): (r: Buffers)
    ensures |r.positions| == |b.positions| + 12 * |sides| && |r.normals| == |b.normals| + 12 * |sides|
    ensures |r.uvs| == |b.uvs| + 8 * |sides| && |r.indices| == |b.indices| + 6 * |sides|
    ensures r.positions[..|b.positions|] == b.positions && r.indices[..|b.indices|] == b.indices
    decreases |sides|
  {
    if sides == [] then b
    else AddSides(AddQuad(b, SideCorners(x, z, sides[0]), sides[0].Normal(), |b.positions| / 3), x, z, sides[1..])
  }

  lemma {:induction false} AddSidesWellFormed(b: Buffers, x: int, z: int, sides: seq<Side>)
    requires WellFormed(b)
    ensures WellFormed(AddSides(b, x, z, sides))
    ensures QuadCount(AddSides(b, x, z, sides)) == QuadCount(b) + |sides|
    decreases |sides|
  {
    if sides != [] {
      AddQuadWellFormed(b, SideCorners(x, z, sides[0]), sides[0].Normal());
      AddSidesWellFormed(AddQuad(b, SideCorners(x, z, sides[0]), sides[0].Normal(), |b.positions| / 3), x, z, sides[1..]);
    }
  }

  /** The buffers after the first `n` cells in x-major order. */
  function MeshCells(g: Grid, n: int): (r: Buffers)
    requires IsGrid(g) && 0 <= n <= GridWidth * GridDepth
    ensures |r.positions| == 12 * SidesCount(g, n) && |r.indices| == 6 * SidesCount(g, n)
  {
    if n == 0 then NoBuffers
    else
      var x, z := (n - 1) / GridDepth, (n - 1) % GridDepth;
      AddSides(MeshCells(g, n - 1), x, z, CellSides(g, x, z))
  }

  /** The total number of faces of the first `n` cells. */
  function SidesCount(g: Grid, n: int): nat
    requires IsGrid(g) && 0 <= n <= GridWidth * GridDepth
  {
    if n == 0 then 0
    else SidesCount(g, n - 1) + |CellSides(g, (n - 1) / GridDepth, (n - 1) % GridDepth)|
  }

  /** The cloud mesh is well formed and holds one quad per face of every cloud
      cell. */
  lemma {:induction false} MeshCellsWellFormed(g: Grid, n: int)
    requires IsGrid(g) && 0 <= n <= GridWidth * GridDepth
    ensures WellFormed(MeshCells(g, n)) && QuadCount(MeshCells(g, n)) == SidesCount(g, n)
  {
    if n > 0 {
      MeshCellsWellFormed(g, n - 1);
      var x, z := (n - 1) / GridDepth, (n - 1) % GridDepth;
      AddSidesWellFormed(MeshCells(g, n - 1), x, z, CellSides(g, x, z));
    }
  }

  /** A grid without cloud cells gives an empty mesh. */
  lemma {:induction false} EmptyGridEmptyMesh(g: Grid, n: int)
    requires IsGrid(g) && 0 <= n <= GridWidth * GridDepth
    requires forall x, z :: 0 <= x < GridWidth && 0 <= z < GridDepth ==> g[x][z] != 1
    ensures MeshCells(g, n) == NoBuffers
  {
    if n > 0 {
      EmptyGridEmptyMesh(g, n - 1);
    }
  }

  function CloudMesh(g: Grid): Buffers
    requires IsGrid(g)
  {
    MeshCells(g, GridWidth * GridDepth)
  }

  /** The mesh's x position moved by one frame: it advances by the speed and
      jumps back to -100 once past +100. */
  function Drift(x: real): (r: real)
    ensures x + Speed > Range / 2.0 ==> r == -Range / 2.0
    ensures x + Speed <= Range / 2.0 ==> r == x + Speed
  {
    if x + Speed > Range / 2.0 then -Range / 2.0 else x + Speed
  }

  /** Starting inside [-100, 100], the layer never leaves it. */
  lemma DriftStaysInRange(x: real)
    requires -Range / 2.0 <= x <= Range / 2.0
    ensures -Range / 2.0 <= Drift(x) <= Range / 2.0
  {
  }

  /** The live mesh: its buffers and its x offset. */
  datatype CloudMeshState = CloudMeshState(buffers: Buffers, x: real)

  /** A cloud layer: `id` tells instances apart; `mesh` is absent after
      disposal. */
  datatype CloudLayer = CloudLayer(id: nat, mesh: Option<CloudMeshState>)

  /** The static `instance` slot. */
  datatype Registry = Registry(instance: Option<CloudLayer>)

  /** The constructor: seed, smooth three times, build the mesh at x = 0. */
  function NewLayer(id: nat, draws: seq<seq<real>>): (c: CloudLayer)
    requires |draws| == GridWidth && forall x :: 0 <= x < |draws| ==> |draws[x]| == GridDepth
    ensures c.id == id && c.mesh.Some? && c.mesh.value.x == 0.0
    ensures WellFormed(c.mesh.value.buffers)
  {
    MeshCellsWellFormed(Smooth(SeedGrid(draws)), GridWidth * GridDepth);
    CloudLayer(id, Some(CloudMeshState(CloudMesh(Smooth(SeedGrid(draws))), 0.0)))
  }

  /** `getInstance`: the existing layer if there is one, otherwise a new one
      that is stored. */
  function GetInstance(r: Registry, freshId: nat, draws: seq<seq<real>>): (res: (Registry, CloudLayer))
    requires |draws| == GridWidth && forall x :: 0 <= x < |draws| ==> |draws[x]| == GridDepth
    ensures res.0.instance == Some(res.1)
    ensures r.instance.Some? ==> res.0 == r && res.1 == r.instance.value
    ensures r.instance.None? ==> res.1 == NewLayer(freshId, draws)
  {
    if r.instance.Some? then (r, r.instance.value)
    else var c := NewLayer(freshId, draws); (Registry(Some(c)), c)
  }

  /** The frame callback: only a live mesh moves. */
  function Frame(c: CloudLayer): (r: CloudLayer)
    ensures r.id == c.id && r.mesh.Some? == c.mesh.Some?
    ensures c.mesh.Some? ==> r.mesh.value == c.mesh.value.(x := Drift(c.mesh.value.x))
  {
    if c.mesh.Some? then c.(mesh := Some(c.mesh.value.(x := Drift(c.mesh.value.x)))) else c
  }

  /** `dispose`: the mesh is released and the slot is cleared. */
  function Dispose(r: Registry, c: CloudLayer): (res: (Registry, CloudLayer))
    ensures res.0.instance.None? && res.1.mesh.None? && res.1.id == c.id
  {
    (Registry(None), c.(mesh := None))
  }

  /** Asking twice gives the same layer; after disposal the next request
      builds a new one. */
  lemma SingleInstance(r: Registry, id1: nat, id2: nat, draws: seq<seq<real>>)
    requires |draws| == GridWidth && forall x :: 0 <= x < |draws| ==> |draws[x]| == GridDepth
    ensures var (r1, c1) := GetInstance(r, id1, draws);
      GetInstance(r1, id2, draws).1 == c1
    ensures var (r1, c1) := GetInstance(r, id1, draws);
      var (r2, _) := Dispose(r1, c1);
      GetInstance(r2, id2, draws).1.id == id2
  {
  }

  /** A layer whose mesh starts inside the wrap range stays inside it for any
      number of frames. */
  lemma {:induction false} FramesStayInRange(c: CloudLayer, n: nat)
    requires c.mesh.Some? ==> -Range / 2.0 <= c.mesh.value.x <= Range / 2.0
    ensures var r := Frames(c, n); r.mesh.Some? ==> -Range / 2.0 <= r.mesh.value.x <= Range / 2.0
  {
    if n > 0 {
      FramesStayInRange(c, n - 1);
      var r := Frames(c, n - 1);
      if r.mesh.Some? {
        DriftStaysInRange(r.mesh.value.x);
      }
    }
  }

  function Frames(c: CloudLayer, n: nat): CloudLayer
  {
    if n == 0 then c else Frame(Frames(c, n - 1))
  }
}
