/** The face-culling terrain mesher: every face of a solid voxel that borders
    air or the edge of the array becomes one quad. Despite its name it merges
    nothing. */
module GreedyMesher {
  import opened Common
  import opened Quads

  /** `voxelData[x][y][z]`, 0 for air. */
  type Voxels = seq<seq<seq<int>>>

  /** The array's extent along y and z, read from its first row and column as
      the mesher does (0 where those do not exist). */
  function Height(v: Voxels): nat {
    if |v| == 0 then 0 else |v[0]|
  }

  function Depth(v: Voxels): nat {
    if |v| == 0 || |v[0]| == 0 then 0 else |v[0][0]|
  }

  /** Every row has the first row's length and every column the first
      column's: the array is a box. */
  predicate Cuboid(v: Voxels) {
    forall x :: 0 <= x < |v| ==>
      |v[x]| == Height(v) && forall y :: 0 <= y < |v[x]| ==> |v[x][y]| == Depth(v)
  }

  predicate InGrid(v: Voxels, x: int, y: int, z: int) {
    0 <= x < |v| && 0 <= y < Height(v) && 0 <= z < Depth(v)
  }

  /** The six neighbour directions in the order the mesher visits them. */
  datatype Dir = PosX | NegX | PosY | NegY | PosZ | NegZ
  {
    function Offset(): Cell {
      match this
      case PosX => Cell(1, 0, 0)
      case NegX => Cell(-1, 0, 0)
      case PosY => Cell(0, 1, 0)
      case NegY => Cell(0, -1, 0)
      case PosZ => Cell(0, 0, 1)
      case NegZ => Cell(0, 0, -1)
    }

    /** The face normal, equal to the offset. */
    function Normal(): Vec3 {
      Vec3(Offset().x as real, Offset().y as real, Offset().z as real)
    }

    function Index(): nat {
      match this
      case PosX => 0
      case NegX => 1
      case PosY => 2
      case NegY => 3
      case PosZ => 4
      case NegZ => 5
    }
  }

  const Directions: seq<Dir> := [PosX, NegX, PosY, NegY, PosZ, NegZ]

  lemma DirectionsInOrder()
    ensures |Directions| == 6
    ensures forall d: Dir :: d in Directions && Directions[d.Index()] == d
    ensures forall k :: 0 <= k < 6 ==> Directions[k].Index() == k
  {
    forall d: Dir ensures d in Directions && Directions[d.Index()] == d {
      match d
      case PosX =>
      case NegX =>
      case PosY =>
      case NegY =>
      case PosZ =>
      case NegZ =>
    }
  }

  /** The face of voxel (x, y, z) that looks in direction `dir`. */
  datatype Face = Face(x: int, y: int, z: int, dir: Dir)
  {
    function Neighbour(): Cell {
      Cell(x + dir.Offset().x, y + dir.Offset().y, z + dir.Offset().z)
    }
  }

  /** A cell outside the array, or an air cell, leaves its neighbour's face
      visible. */
  predicate Open(v: Voxels, c: Cell)
    requires Cuboid(v)
  {
    !InGrid(v, c.x, c.y, c.z) || v[c.x][c.y][c.z] == 0
  }

  /** The reference definition of the mesher's output: the faces of solid
      voxels whose neighbour is open. */
  predicate Emits(v: Voxels, f: Face)
    requires Cuboid(v)
  {
    InGrid(v, f.x, f.y, f.z) && v[f.x][f.y][f.z] != 0 && Open(v, f.Neighbour())
  }

  /** The scan order: x, then y, then z, then the direction, is before the
      cursor (x, y, z, k). */
  predicate Before(f: Face, x: int, y: int, z: int, k: int) {
    f.x < x || (f.x == x && (f.y < y || (f.y == y && (f.z < z || (f.z == z && f.dir.Index() < k)))))
  }

  predicate Precedes(f: Face, g: Face) {
    Before(f, g.x, g.y, g.z, g.dir.Index())
  }

  predicate InScanOrder(fs: seq<Face>) {
    forall i :: 0 < i < |fs| ==> Precedes(fs[i - 1], fs[i])
  }

  /** `createFace`: four corners on the plane half a block in front of the
      block centre along +z, whichever direction the face looks. */
  function CreateFace(x: real, y: real, z: real, blockSize: real, dir: Dir): (corners: seq<Vec3>)
    ensures |corners| == 4
  {
    var s := blockSize / 2.0;
    [Vec3(x - s, y - s, z + s), Vec3(x + s, y - s, z + s), Vec3(x + s, y + s, z + s), Vec3(x - s, y + s, z + s)]
  }

  function Corners(f: Face, blockSize: real): (corners: seq<Vec3>)
    ensures |corners| == 4
  {
    CreateFace(Scaled(f.x, blockSize), Scaled(f.y, blockSize), Scaled(f.z, blockSize), blockSize, f.dir)
  }

  /** The world coordinate `n * blockSize` of voxel index `n`. Naming the
      product keeps the real multiplication out of the solver's way when two
      faces' corners are compared. */
  function Scaled(n: int, blockSize: real): real {
    n as real * blockSize
  }

  /** The buffers that the faces `fs` give, quad by quad in order. */
  function Emit(fs: seq<Face>, blockSize: real): Buffers
  {
    if fs == [] then NoBuffers
    else
      var last := fs[|fs| - 1];
      AddQuad(Emit(fs[..|fs| - 1], blockSize), Corners(last, blockSize), last.dir.Normal(), 4 * (|fs| - 1))
  }

  /** Emitting faces one quad at a time, numbered by the running vertex
      offset, keeps the buffers well formed with one quad per face. */
  lemma {:induction false} EmitWellFormed(fs: seq<Face>, blockSize: real)
    ensures WellFormed(Emit(fs, blockSize)) && QuadCount(Emit(fs, blockSize)) == |fs|
    ensures |Emit(fs, blockSize).positions| == 12 * |fs|
  {
    if fs != [] {
      var prefix := fs[..|fs| - 1];
      var last := fs[|fs| - 1];
      EmitWellFormed(prefix, blockSize);
      var b := Emit(prefix, blockSize);
      assert |b.positions| / 3 == 4 * (|fs| - 1);
      AddQuadWellFormed(b, Corners(last, blockSize), last.dir.Normal());
    }
  }

  /** The loop state after the scan reached cursor (x, y, z, k): `faces`
      are exactly the emitted faces before the cursor, in scan order, `buf`
      holds their quads and `indexOffset` counts their vertices. */
  ghost predicate Scanned(v: Voxels, blockSize: real, buf: Buffers, faces: seq<Face>, indexOffset: int,
                    x: int, y: int, z: int, k: int)
    requires Cuboid(v)
  {
    && buf == Emit(faces, blockSize) && indexOffset == 4 * |faces|
    && InScanOrder(faces) && (|faces| > 0 ==> Before(faces[|faces| - 1], x, y, z, k))
    && forall f :: f in faces <==> Emits(v, f) && Before(f, x, y, z, k)
  }

  /** The innermost loop: the six directions of voxel (x, y, z), skipped for
      air, each adding a quad when the neighbour that way is open. */
  method MeshVoxel(v: Voxels, blockSize: real, x: int, y: int, z: int,
                   buf0: Buffers, faces0: seq<Face>, indexOffset0: int)
    returns (buf: Buffers, faces: seq<Face>, indexOffset: int)
    requires Cuboid(v) && InGrid(v, x, y, z)
    requires Scanned(v, blockSize, buf0, faces0, indexOffset0, x, y, z, 0)
    ensures Scanned(v, blockSize, buf, faces, indexOffset, x, y, z + 1, 0)
  {
    buf, faces, indexOffset := buf0, faces0, indexOffset0;
    if v[x][y][z] == 0 {
      SkipVoxel(v, blockSize, buf, faces, indexOffset, x, y, z, 0);
      return;
    }
    var k := 0;
    while k < |Directions|
      invariant 0 <= k <= |Directions|
      invariant Scanned(v, blockSize, buf, faces, indexOffset, x, y, z, k)
    {
      var f := Face(x, y, z, Directions[k]);
      var n := f.Neighbour();
      var isOutside := n.x < 0 || n.y < 0 || n.z < 0 || n.x >= |v| || n.y >= |v[0]| || n.z >= |v[0][0]|;
      if isOutside || v[n.x][n.y][n.z] == 0 {
        EmitStep(v, blockSize, buf, faces, indexOffset, x, y, z, k);
        buf := AddQuad(buf, Corners(f, blockSize), f.dir.Normal(), indexOffset);
        faces := faces + [f];
        indexOffset := indexOffset + 4;
      } else {
        SkipStep(v, blockSize, buf, faces, indexOffset, x, y, z, k);
      }
      k := k + 1;
    }
    SkipVoxel(v, blockSize, buf, faces, indexOffset, x, y, z, 6);
  }

  /** An open neighbour: the face is appended and the cursor moves on. */
  lemma EmitStep(v: Voxels, blockSize: real, buf: Buffers, faces: seq<Face>, indexOffset: int,
                 x: int, y: int, z: int, k: int)
    requires Cuboid(v) && 0 <= k < 6
    requires Scanned(v, blockSize, buf, faces, indexOffset, x, y, z, k)
    requires Emits(v, Face(x, y, z, Directions[k]))
    ensures var f := Face(x, y, z, Directions[k]);
      Scanned(v, blockSize, AddQuad(buf, Corners(f, blockSize), f.dir.Normal(), indexOffset),
              faces + [f], indexOffset + 4, x, y, z, k + 1)
  {
    var f := Face(x, y, z, Directions[k]);
    DirectionsInOrder();
    AppendInScanOrder(faces, f);
    AppendMembers(v, faces, f, x, y, z, k);
    EmitAppend(faces, f, blockSize);
    ScannedIntro(v, blockSize, AddQuad(buf, Corners(f, blockSize), f.dir.Normal(), indexOffset),
                 faces + [f], indexOffset + 4, x, y, z, k + 1);
  }

  /** The loop state from its parts. */
  lemma ScannedIntro(v: Voxels, blockSize: real, buf: Buffers, faces: seq<Face>, indexOffset: int,
                     x: int, y: int, z: int, k: int)
    requires Cuboid(v) && |faces| > 0
    requires buf == Emit(faces, blockSize) && indexOffset == 4 * |faces|
    requires InScanOrder(faces) && Before(faces[|faces| - 1], x, y, z, k)
    requires forall f :: f in faces <==> Emits(v, f) && Before(f, x, y, z, k)
    ensures Scanned(v, blockSize, buf, faces, indexOffset, x, y, z, k)
  {
  }

  lemma EmitAppend(faces: seq<Face>, f: Face, blockSize: real)
    ensures Emit(faces + [f], blockSize) == AddQuad(Emit(faces, blockSize), Corners(f, blockSize), f.dir.Normal(), 4 * |faces|)
  {
    var fs := faces + [f];
    assert fs[..|fs| - 1] == faces;
  }

  /** Appending a face that the last one precedes keeps the scan order. */
  lemma AppendInScanOrder(faces: seq<Face>, f: Face)
    requires InScanOrder(faces) && (|faces| > 0 ==> Precedes(faces[|faces| - 1], f))
    ensures InScanOrder(faces + [f])
  {
    var fs := faces + [f];
    forall i | 0 < i < |fs| ensures Precedes(fs[i - 1], fs[i]) {
      if i < |fs| - 1 {
        assert fs[i - 1] == faces[i - 1] && fs[i] == faces[i];
      }
    }
  }

  /** The emitted faces before the cursor, plus the face at it, are the
      emitted faces before the next cursor. */
  lemma AppendMembers(v: Voxels, faces: seq<Face>, f: Face, x: int, y: int, z: int, k: int)
    requires Cuboid(v) && 0 <= k < 6 && f == Face(x, y, z, Directions[k]) && f.dir.Index() == k && Emits(v, f)
    requires forall g :: g in faces <==> Emits(v, g) && Before(g, x, y, z, k)
    ensures forall g :: g in faces + [f] <==> Emits(v, g) && Before(g, x, y, z, k + 1)
  {
    forall g ensures g in faces + [f] <==> Emits(v, g) && Before(g, x, y, z, k + 1) {
      assert g in faces + [f] <==> g in faces || g == f;
    }
  }

  /** A closed neighbour: nothing is appended and the cursor moves on. */
  lemma SkipStep(v: Voxels, blockSize: real, buf: Buffers, faces: seq<Face>, indexOffset: int,
                 x: int, y: int, z: int, k: int)
    requires Cuboid(v) && 0 <= k < 6
    requires Scanned(v, blockSize, buf, faces, indexOffset, x, y, z, k)
    requires !Emits(v, Face(x, y, z, Directions[k]))
    ensures Scanned(v, blockSize, buf, faces, indexOffset, x, y, z, k + 1)
  {
    assert Directions[k].Index() == k;
  }

  /** Past the last direction, or at an air voxel, the cursor moves to the
      next voxel with nothing appended. */
  lemma SkipVoxel(v: Voxels, blockSize: real, buf: Buffers, faces: seq<Face>, indexOffset: int,
                  x: int, y: int, z: int, k: int)
    requires Cuboid(v) && InGrid(v, x, y, z) && (k == 6 || (k == 0 && v[x][y][z] == 0))
    requires Scanned(v, blockSize, buf, faces, indexOffset, x, y, z, k)
    ensures Scanned(v, blockSize, buf, faces, indexOffset, x, y, z + 1, 0)
  {
  }

  /** The z loop over one column. */
  method MeshColumn(v: Voxels, blockSize: real, x: int, y: int,
                    buf0: Buffers, faces0: seq<Face>, indexOffset0: int)
    returns (buf: Buffers, faces: seq<Face>, indexOffset: int)
    requires Cuboid(v) && 0 <= x < |v| && 0 <= y < Height(v)
    requires Scanned(v, blockSize, buf0, faces0, indexOffset0, x, y, 0, 0)
    ensures Scanned(v, blockSize, buf, faces, indexOffset, x, y + 1, 0, 0)
  {
    buf, faces, indexOffset := buf0, faces0, indexOffset0;
    var z := 0;
    while z < Depth(v)
      invariant 0 <= z <= Depth(v)
      invariant Scanned(v, blockSize, buf, faces, indexOffset, x, y, z, 0)
    {
      buf, faces, indexOffset := MeshVoxel(v, blockSize, x, y, z, buf, faces, indexOffset);
      z := z + 1;
    }
  }

  /** The y loop over one slice. */
  method MeshSlice(v: Voxels, blockSize: real, x: int,
                   buf0: Buffers, faces0: seq<Face>, indexOffset0: int)
    returns (buf: Buffers, faces: seq<Face>, indexOffset: int)
    requires Cuboid(v) && 0 <= x < |v|
    requires Scanned(v, blockSize, buf0, faces0, indexOffset0, x, 0, 0, 0)
    ensures Scanned(v, blockSize, buf, faces, indexOffset, x + 1, 0, 0, 0)
  {
    buf, faces, indexOffset := buf0, faces0, indexOffset0;
    var y := 0;
    while y < Height(v)
      invariant 0 <= y <= Height(v)
      invariant Scanned(v, blockSize, buf, faces, indexOffset, x, y, 0, 0)
    {
      buf, faces, indexOffset := MeshColumn(v, blockSize, x, y, buf, faces, indexOffset);
      y := y + 1;
    }
  }

  /** `mesh`: an empty array, or one without a first row, has no first column
      or first element to read and the call fails. Otherwise `faces` are the
      emitted faces in scan order and the buffers hold exactly their quads. */
  method Mesh(v: Voxels, blockSize: real) returns (r: Result<Buffers>, faces: seq<Face>)
    requires Cuboid(v)
    ensures r.Err? <==> |v| == 0 || |v[0]| == 0
    ensures r.Ok? ==> r.value == Emit(faces, blockSize) && WellFormed(r.value) && QuadCount(r.value) == |faces|
    ensures r.Ok? ==> forall f :: f in faces <==> Emits(v, f)
    ensures InScanOrder(faces)
  {
    faces := [];
    if |v| == 0 || |v[0]| == 0 {
      return Err("Cannot read properties of undefined (reading 'length')"), faces;
    }
    var buf := NoBuffers;
    var indexOffset := 0;
    var x := 0;
    while x < |v|
      invariant 0 <= x <= |v|
      invariant Scanned(v, blockSize, buf, faces, indexOffset, x, 0, 0, 0)
    {
      buf, faces, indexOffset := MeshSlice(v, blockSize, x, buf, faces, indexOffset);
      x := x + 1;
    }
    EmitWellFormed(faces, blockSize);
    r := Ok(buf);
  }

  /** A solid voxel with nothing solid around it shows all six faces. */
  lemma IsolatedVoxelShowsSixFaces(v: Voxels, x: int, y: int, z: int)
    requires Cuboid(v) && InGrid(v, x, y, z) && v[x][y][z] != 0
    requires forall d: Dir :: Open(v, Face(x, y, z, d).Neighbour())
    ensures forall f: Face :: f.x == x && f.y == y && f.z == z ==> Emits(v, f)
  {
  }

  /** A voxel whose six neighbours are all solid voxels of the array shows no
      face, and air never does. */
  lemma HiddenVoxelShowsNothing(v: Voxels, x: int, y: int, z: int)
    requires Cuboid(v)
    requires !InGrid(v, x, y, z) || v[x][y][z] == 0 || forall d: Dir :: !Open(v, Face(x, y, z, d).Neighbour())
    ensures forall d: Dir :: !Emits(v, Face(x, y, z, d))
  {
  }

  /** Two solid neighbours never draw the face between them. */
  lemma SharedFacesHidden(v: Voxels, f: Face)
    requires Cuboid(v) && Emits(v, f)
    ensures var n := f.Neighbour(); !(InGrid(v, n.x, n.y, n.z) && v[n.x][n.y][n.z] != 0)
  {
  }

  /** The quad does not depend on the direction it stands for: all six faces
      of a voxel land on the same square, on the +z side of the block. */
  lemma FacesIgnoreDirection(f: Face, g: Face, blockSize: real)
    requires f.x == g.x && f.y == g.y && f.z == g.z
    ensures Corners(f, blockSize) == Corners(g, blockSize)
    ensures forall i :: 0 <= i < 4 ==> Corners(f, blockSize)[i].z == f.z as real * blockSize + blockSize / 2.0
  {
    assert g == f.(dir := g.dir);
    CornersIgnoreDir(f, g.dir, blockSize);
  }

  /** `createFace` never reads its direction, so re-aiming a face keeps its
      corners. */
  lemma CornersIgnoreDir(f: Face, d: Dir, blockSize: real)
    ensures Corners(f, blockSize) == Corners(f.(dir := d), blockSize)
  {
  }

  /** Scan order is strict, so the emitted faces hold no face twice. */
  lemma {:induction false} ScanOrderDistinct(fs: seq<Face>)
    requires InScanOrder(fs)
    ensures forall i, j :: 0 <= i < j < |fs| ==> Precedes(fs[i], fs[j])
  {
    if |fs| > 1 {
      var prefix := fs[..|fs| - 1];
      assert InScanOrder(prefix) by {
        forall i | 0 < i < |prefix| ensures Precedes(prefix[i - 1], prefix[i]) {
          assert prefix[i - 1] == fs[i - 1] && prefix[i] == fs[i];
        }
      }
      ScanOrderDistinct(prefix);
      forall i, j | 0 <= i < j < |fs| ensures Precedes(fs[i], fs[j]) {
        if j < |fs| - 1 {
          assert fs[i] == prefix[i] && fs[j] == prefix[j];
        } else if i < j - 1 {
          assert fs[i] == prefix[i] && fs[j - 1] == prefix[j - 1];
          assert Precedes(fs[i], fs[j - 1]);
        }
      }
    }
  }
}
