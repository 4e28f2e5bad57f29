/** The height-map terrain generator: a noise-driven column height per (x, z),
    and one block instance (and one outline instance at the same place) for
    every block of a column that is visible from outside. */
module WorldGenerator {
  import opened Common

  /** The noise sampling step. */
  const Scale: real := 0.1

  /** `Math.floor(((n + 1) / 2) * maxHeight)`. */
  function HeightFromNoise(n: real, maxHeight: int): (h: int)
    ensures h as real <= (n + 1.0) / 2.0 * maxHeight as real < h as real + 1.0
  {
    ((n + 1.0) / 2.0 * maxHeight as real).Floor
  }

  /** Simplex noise lies in [-1, 1], so every column height lies in
      [0, maxHeight]. */
  lemma HeightInRange(n: real, maxHeight: int)
    requires -1.0 <= n <= 1.0 && maxHeight >= 0
    ensures 0 <= HeightFromNoise(n, maxHeight) <= maxHeight
  {
    var t := (n + 1.0) / 2.0;
    var m := maxHeight as real;
    assert 0.0 <= t <= 1.0;
    assert (1.0 - t) * m >= 0.0;
    assert 0.0 <= t * m <= m;
  }

  /** `heightMap[x][z]` for x < width and z < depth. */
  type HeightMap = seq<seq<int>>

  predicate Rectangular(map_: HeightMap, width: nat, depth: nat) {
    |map_| == width && forall x :: 0 <= x < width ==> |map_[x]| == depth
  }

  /** The height map of `generateTerrain`; `noise` stands for the simplex
      noise function, which is seeded at random. */
  function BuildHeightMap(noise: (real, real) -> real, width: nat, depth: nat, maxHeight: int): (m: HeightMap)
    ensures Rectangular(m, width, depth)
    ensures forall x, z :: 0 <= x < width && 0 <= z < depth ==>
      m[x][z] == HeightFromNoise(noise(x as real * Scale, z as real * Scale), maxHeight)
  {
    seq(width, x requires 0 <= x < width =>
      seq(depth, z requires 0 <= z < depth => HeightFromNoise(noise(x as real * Scale, z as real * Scale), maxHeight)))
  }

  /** A neighbour column off the map, or one whose top is at or below y,
      leaves block y of a column visible from that side. */
  predicate OpenSide(map_: HeightMap, width: nat, depth: nat, nx: int, nz: int, y: int)
    requires Rectangular(map_, width, depth)
  {
    nx < 0 || nx >= width || nz < 0 || nz >= depth || map_[nx][nz] <= y
  }

  /** The four horizontal neighbours, in the order they are checked. */
  function Neighbours(x: int, z: int): seq<(int, int)> {
    [(x + 1, z), (x - 1, z), (x, z + 1), (x, z - 1)]
  }

  /** The visibility rule: some side is open, or y is the column's top. */
  predicate Exposed(map_: HeightMap, width: nat, depth: nat, x: int, y: int, z: int)
    requires Rectangular(map_, width, depth) && 0 <= x < width && 0 <= z < depth
  {
    || OpenSide(map_, width, depth, x + 1, z, y)
    || OpenSide(map_, width, depth, x - 1, z, y)
    || OpenSide(map_, width, depth, x, z + 1, y)
    || OpenSide(map_, width, depth, x, z - 1, y)
    || y == map_[x][z] - 1
  }

  /** `isExposed`: the neighbour loop returns at the first open side;
      otherwise the block is visible exactly when it is the column's top. */
  method IsExposed(x: int, y: int, z: int, map_: HeightMap, width: nat, depth: nat) returns (b: bool)
    requires Rectangular(map_, width, depth) && 0 <= x < width && 0 <= z < depth
    ensures b == Exposed(map_, width, depth, x, y, z)
  {
    var neighbours := Neighbours(x, z);
    var i := 0;
    while i < |neighbours|
      invariant 0 <= i <= |neighbours|
      invariant forall j :: 0 <= j < i ==> !OpenSide(map_, width, depth, neighbours[j].0, neighbours[j].1, y)
    {
      var (nx, nz) := neighbours[i];
      assert i == 0 || i == 1 || i == 2 || i == 3;
      if nx < 0 || nx >= width || nz < 0 || nz >= depth {
        return true;
      }
      if map_[nx][nz] <= y {
        return true;
      }
      i := i + 1;
    }
    assert !OpenSide(map_, width, depth, neighbours[0].0, neighbours[0].1, y);
    assert !OpenSide(map_, width, depth, neighbours[1].0, neighbours[1].1, y);
    assert !OpenSide(map_, width, depth, neighbours[2].0, neighbours[2].1, y);
    assert !OpenSide(map_, width, depth, neighbours[3].0, neighbours[3].1, y);
    b := y == map_[x][z] - 1;
  }

  /** The top block of a column is always visible. */
  lemma TopIsExposed(map_: HeightMap, width: nat, depth: nat, x: int, z: int)
    requires Rectangular(map_, width, depth) && 0 <= x < width && 0 <= z < depth
    ensures Exposed(map_, width, depth, x, map_[x][z] - 1, z)
  {
  }

  /** Every block of a column on the map's edge is visible. */
  lemma EdgeColumnsExposed(map_: HeightMap, width: nat, depth: nat, x: int, y: int, z: int)
    requires Rectangular(map_, width, depth) && 0 <= x < width && 0 <= z < depth
    requires x == 0 || x == width - 1 || z == 0 || z == depth - 1
    ensures Exposed(map_, width, depth, x, y, z)
  {
  }

  /** A block below the top of an inner column whose four neighbours all
      rise above it is hidden. */
  lemma BuriedIsHidden(map_: HeightMap, width: nat, depth: nat, x: int, y: int, z: int)
    requires Rectangular(map_, width, depth) && 0 < x < width - 1 && 0 < z < depth - 1
    requires y < map_[x][z] - 1
    requires map_[x + 1][z] > y && map_[x - 1][z] > y && map_[x][z + 1] > y && map_[x][z - 1] > y
    ensures !Exposed(map_, width, depth, x, y, z)
  {
  }

  /** The instance translation of block (x, y, z): the map is centred on the
      origin in x and z. */
  function Translation(c: Cell, width: nat, depth: nat, blockSize: real): Vec3 {
    Vec3((c.x as real - width as real / 2.0) * blockSize, c.y as real * blockSize,
         (c.z as real - depth as real / 2.0) * blockSize)
  }

  /** The blocks that get an instance: inside a column and visible. */
  predicate Emitted(map_: HeightMap, width: nat, depth: nat, c: Cell)
    requires Rectangular(map_, width, depth)
  {
    0 <= c.x < width && 0 <= c.z < depth && 0 <= c.y < map_[c.x][c.z] && Exposed(map_, width, depth, c.x, c.y, c.z)
  }

  /** Scan order x, then z, then y, is before the cursor (x, z, y). */
  predicate Before(c: Cell, x: int, z: int, y: int) {
    c.x < x || (c.x == x && (c.z < z || (c.z == z && c.y < y)))
  }

  predicate InScanOrder(cs: seq<Cell>) {
    forall i :: 0 < i < |cs| ==> Before(cs[i - 1], cs[i].x, cs[i].z, cs[i].y)
  }

  /** The loop state at cursor (x, z, y): `cells` are the emitted blocks
      before it in scan order, and both matrix lists hold their
      translations. */
  ghost predicate Scanned(map_: HeightMap, width: nat, depth: nat, blockSize: real,
                          cells: seq<Cell>, instances: seq<Vec3>, outlines: seq<Vec3>, x: int, z: int, y: int)
    requires Rectangular(map_, width, depth)
  {
    && |instances| == |cells| && outlines == instances
    && (forall i :: 0 <= i < |cells| ==> instances[i] == Translation(cells[i], width, depth, blockSize))
    && InScanOrder(cells) && (|cells| > 0 ==> Before(cells[|cells| - 1], x, z, y))
    && forall c :: c in cells <==> Emitted(map_, width, depth, c) && Before(c, x, z, y)
  }

  /** The y loop over one column. */
  method ScanColumn(map_: HeightMap, width: nat, depth: nat, blockSize: real, x: int, z: int,
                    cells0: seq<Cell>, instances0: seq<Vec3>, outlines0: seq<Vec3>)
    returns (cells: seq<Cell>, instances: seq<Vec3>, outlines: seq<Vec3>)
    requires Rectangular(map_, width, depth) && 0 <= x < width && 0 <= z < depth
    requires Scanned(map_, width, depth, blockSize, cells0, instances0, outlines0, x, z, 0)
    ensures Scanned(map_, width, depth, blockSize, cells, instances, outlines, x, z + 1, 0)
  {
    cells, instances, outlines := cells0, instances0, outlines0;
    var h := map_[x][z];
    var y := 0;
    while y < h
      invariant 0 <= y && (h >= 0 ==> y <= h)
      invariant Scanned(map_, width, depth, blockSize, cells, instances, outlines, x, z, y)
    {
      var exposed := IsExposed(x, y, z, map_, width, depth);
      if exposed {
        var c := Cell(x, y, z);
        var t := Translation(c, width, depth, blockSize);
        var prev := cells;
        cells := prev + [c];
        instances := instances + [t];
        outlines := outlines + [t];
        assert InScanOrder(cells) by {
          forall i | 0 < i < |cells| ensures Before(cells[i - 1], cells[i].x, cells[i].z, cells[i].y) {
            if i < |cells| - 1 {
              assert cells[i - 1] == prev[i - 1] && cells[i] == prev[i];
            }
          }
        }
        forall e ensures e in cells <==> Emitted(map_, width, depth, e) && Before(e, x, z, y + 1) {
          assert e in cells <==> e in prev || e == c;
        }
      }
      y := y + 1;
    }
  }

  /** The z loop over one row of columns. */
  method ScanRow(map_: HeightMap, width: nat, depth: nat, blockSize: real, x: int,
                 cells0: seq<Cell>, instances0: seq<Vec3>, outlines0: seq<Vec3>)
    returns (cells: seq<Cell>, instances: seq<Vec3>, outlines: seq<Vec3>)
    requires Rectangular(map_, width, depth) && 0 <= x < width
    requires Scanned(map_, width, depth, blockSize, cells0, instances0, outlines0, x, 0, 0)
    ensures Scanned(map_, width, depth, blockSize, cells, instances, outlines, x + 1, 0, 0)
  {
    cells, instances, outlines := cells0, instances0, outlines0;
    var z := 0;
    while z < depth
      invariant 0 <= z <= depth
      invariant Scanned(map_, width, depth, blockSize, cells, instances, outlines, x, z, 0)
    {
      cells, instances, outlines := ScanColumn(map_, width, depth, blockSize, x, z, cells, instances, outlines);
      z := z + 1;
    }
  }

  /** The exposed-block enumeration of `generateTerrain` over a given height
      map: the instance and outline lists are equal, and hold, in scan order,
      one translation per visible block of every column. */
  method EnumerateExposed(map_: HeightMap, width: nat, depth: nat, blockSize: real)
    returns (cells: seq<Cell>, instances: seq<Vec3>, outlines: seq<Vec3>)
    requires Rectangular(map_, width, depth)
    ensures outlines == instances && |instances| == |cells|
    ensures forall i :: 0 <= i < |cells| ==> instances[i] == Translation(cells[i], width, depth, blockSize)
    ensures forall c :: c in cells <==> Emitted(map_, width, depth, c)
    ensures InScanOrder(cells)
  {
    cells, instances, outlines := [], [], [];
    var x := 0;
    while x < width
      invariant 0 <= x <= width
      invariant Scanned(map_, width, depth, blockSize, cells, instances, outlines, x, 0, 0)
    {
      cells, instances, outlines := ScanRow(map_, width, depth, blockSize, x, cells, instances, outlines);
      x := x + 1;
    }
  }

  /** `generateTerrain`: the height map from the noise, then the
      enumeration. */
  method GenerateTerrain(noise: (real, real) -> real, width: nat, depth: nat, blockSize: real, maxHeight: int)
    returns (heights: HeightMap, cells: seq<Cell>, instances: seq<Vec3>, outlines: seq<Vec3>)
    ensures heights == BuildHeightMap(noise, width, depth, maxHeight)
    ensures outlines == instances && |instances| == |cells|
    ensures forall i :: 0 <= i < |cells| ==> instances[i] == Translation(cells[i], width, depth, blockSize)
    ensures forall c :: c in cells <==> Emitted(heights, width, depth, c)
    ensures InScanOrder(cells)
  {
    heights := BuildHeightMap(noise, width, depth, maxHeight);
    cells, instances, outlines := EnumerateExposed(heights, width, depth, blockSize);
  }
}
