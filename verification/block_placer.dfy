/** Right-click block placement: the target cell from a ray hit or from the
    standing block, the range and torso-overlap checks, the local-coordinate
    computation, and the single-cell write into the owning chunk. */
module BlockPlacer {
  import opened Common
  import opened VoxelChunk
  import opened VoxelWorld

  // ---------------------------------------------------------------------------
  // Target cell.

  /** A ray hit on a block mesh: the picked point and the face normal, either
      of which the picking result may lack. */
  datatype PickInfo = PickInfo(pickedPoint: Option<Vec3>, normal: Option<Vec3>)

  /** An axis-aligned box, as the world bounding box of the player collider. */
  datatype Box = Box(min: Vec3, max: Vec3)

  /** What the handler reads from the scene and the player at one event: the
      ray hit (`None` when nothing was hit), the position of the block the
      player stands on, the camera's forward direction, the camera position,
      and the player's collider box if it has one. */
  datatype View = View(
    pick: Option<PickInfo>,
    standing: Option<Vec3>,
    forward: Vec3,
    cameraPos: Vec3,
    collider: Option<Box>)

  /** The grid cell containing a point: `Math.floor` per axis. */
  function FloorCell(v: Vec3): (c: Cell)
    ensures c.x as real <= v.x < c.x as real + 1.0
    ensures c.y as real <= v.y < c.y as real + 1.0
    ensures c.z as real <= v.z < c.z as real + 1.0
  {
    Cell(v.x.Floor, v.y.Floor, v.z.Floor)
  }

  /** The centre of a grid cell. */
  function Centre(c: Cell): Vec3 {
    Vec3(c.x as real + 0.5, c.y as real + 0.5, c.z as real + 0.5)
  }

  /** Flooring a cell centre gives the cell back. */
  lemma FloorCentre(c: Cell)
    ensures FloorCell(Centre(c)) == c
  {
  }

  /** The hit branch: the centre of the cell containing the point half a unit
      along the normal from the hit point. */
  function HitTarget(p: Vec3, n: Vec3): Vec3 {
    Centre(FloorCell(Vec3(p.x + n.x * 0.5, p.y + n.y * 0.5, p.z + n.z * 0.5)))
  }

  /** The fallback's one-cell step along the dominant axis of the forward
      direction: x when |fx| is largest (ties go to x), else z when |fz| is at
      least |fy|, else straight up. The sign is +1 for a strictly positive
      component and -1 otherwise. */
  function FallbackStep(f: Vec3): (d: Vec3)
    ensures d.y >= 0.0
    ensures d == Vec3(d.x, 0.0, 0.0) || d == Vec3(0.0, d.y, 0.0) || d == Vec3(0.0, 0.0, d.z)
    ensures Abs(d.x) + Abs(d.y) + Abs(d.z) == 1.0
    ensures d.x != 0.0 <==> Abs(f.x) >= Abs(f.y) && Abs(f.x) >= Abs(f.z)
    ensures d.y != 0.0 <==> Abs(f.y) > Abs(f.x) && Abs(f.y) > Abs(f.z)
    ensures d.x != 0.0 ==> (d.x == 1.0 <==> f.x > 0.0)
    ensures d.z != 0.0 ==> (d.z == 1.0 <==> f.z > 0.0)
  {
    var ax, ay, az := Abs(f.x), Abs(f.y), Abs(f.z);
    if ax >= ay && ax >= az then Vec3(if f.x > 0.0 then 1.0 else -1.0, 0.0, 0.0)
    else if az >= ay && az >= ax then Vec3(0.0, 0.0, if f.z > 0.0 then 1.0 else -1.0)
    else Vec3(0.0, 1.0, 0.0)
  }

  /** `getPlacementPosition`: a hit with a picked point uses the hit rule (and
      gives nothing when the normal is missing); otherwise the block under the
      player, stepped once along the forward direction, is the target; with
      neither there is no target. */
  function PlacementPosition(view: View): (r: Option<Vec3>)
    ensures r.Some? ==> r.value == Centre(FloorCell(r.value))
    ensures view.pick.Some? && view.pick.value.pickedPoint.Some? ==>
      r == match view.pick.value.normal
        case None => None
        case Some(n) => Some(HitTarget(view.pick.value.pickedPoint.value, n))
    ensures !(view.pick.Some? && view.pick.value.pickedPoint.Some?) ==>
      (r.Some? <==> view.standing.Some?)
    ensures !(view.pick.Some? && view.pick.value.pickedPoint.Some?) && view.standing.Some? ==>
      r.value == Centre(FloorCell(view.standing.value.Add(FallbackStep(view.forward))))
  {
    if view.pick.Some? && view.pick.value.pickedPoint.Some? then
      match view.pick.value.normal
      case None => None
      case Some(n) =>
        var t := HitTarget(view.pick.value.pickedPoint.value, n);
        FloorCentre(FloorCell(Vec3(view.pick.value.pickedPoint.value.x + n.x * 0.5,
                                   view.pick.value.pickedPoint.value.y + n.y * 0.5,
                                   view.pick.value.pickedPoint.value.z + n.z * 0.5)));
        Some(t)
    else
      match view.standing
      case None => None
      case Some(b) =>
        var c := FloorCell(b.Add(FallbackStep(view.forward)));
        FloorCentre(c);
        Some(Centre(c))
  }

  /** A hit on the top face of the block in cell (i, k - 1, j), whose normal
      points up, targets the cell (i, k, j) directly above it. */
  lemma HitOnTopFaceTargetsCellAbove(p: Vec3, i: int, k: int, j: int)
    requires i as real <= p.x < i as real + 1.0
    requires p.y == k as real
    requires j as real <= p.z < j as real + 1.0
    ensures HitTarget(p, Vec3(0.0, 1.0, 0.0)) == Centre(Cell(i, k, j))
  {
    var q := Vec3(p.x + 0.0 * 0.5, p.y + 1.0 * 0.5, p.z + 0.0 * 0.5);
    assert q.x == p.x && q.z == p.z && q.y == k as real + 0.5;
    assert FloorCell(q) == Cell(i, k, j);
  }

  /** With nothing hit and no standing block there is no target. */
  lemma NoHitNoStandingNoTarget(view: View)
    requires view.pick.None? && view.standing.None?
    ensures PlacementPosition(view).None?
  {
  }

  // ---------------------------------------------------------------------------
  // Range and overlap checks.

  const MaxRange: real := 6.0

  /** Comparing the distance with 6 is comparing the squared distance with
      36: for any non-negative `d` with d * d the squared distance, `d > 6`
      exactly when the squared distance exceeds 36. */
  lemma RangeBySquares(a: Vec3, b: Vec3, d: real)
    requires d >= 0.0 && d * d == DistSq(a, b)
    ensures d > MaxRange <==> DistSq(a, b) > MaxRange * MaxRange
  {
    if d > MaxRange {
      assert d * d > MaxRange * d >= MaxRange * MaxRange;
    } else {
      assert d * d <= 6.0 * d by { assert d * (6.0 - d) >= 0.0; }
    }
  }

  /** The y level above which the collider counts as upper body: 40% of the
      way up the box. */
  function TorsoMinY(b: Box): real {
    b.min.y + (b.max.y - b.min.y) * 0.4
  }

  /** The unit block centred on `t` touches or overlaps the collider in x and z
      (touching counts) and its top reaches the torso line. There is no upper
      bound in y. */
  predicate DangerousOverlap(t: Vec3, b: Box) {
    && t.x + 0.5 >= b.min.x && t.x - 0.5 <= b.max.x
    && t.z + 0.5 >= b.min.z && t.z - 0.5 <= b.max.z
    && t.y + 0.5 >= TorsoMinY(b)
  }

  /** A block overlapping the collider's columns is rejected even when it lies
      wholly above the collider's top. */
  lemma AboveHeadStillRejected(t: Vec3, b: Box)
    requires b.min.y <= b.max.y
    requires b.min.x <= t.x <= b.max.x && b.min.z <= t.z <= b.max.z
    requires t.y - 0.5 > b.max.y
    ensures DangerousOverlap(t, b)
  {
  }

  /** A block whose top stays below the torso line, or whose x or z extent is
      clear of the collider, is never rejected. */
  lemma ClearOfTorsoAccepted(t: Vec3, b: Box)
    requires t.y + 0.5 < TorsoMinY(b) || t.x - 0.5 > b.max.x || t.x + 0.5 < b.min.x
          || t.z - 0.5 > b.max.z || t.z + 0.5 < b.min.z
    ensures !DangerousOverlap(t, b)
  {
  }

  // ---------------------------------------------------------------------------
  // Local coordinates.

  /** `((v % 16) + 16) % 16` with JavaScript's truncating `%`. */
  function JsLocal(v: int): (l: int)
    ensures l == v % ChunkSize
  {
    JsRemCongruent(v);
    JsRem(JsRem(v, ChunkSize) + ChunkSize, ChunkSize)
  }

  lemma {:induction false} JsRemCongruent(a: int)
    ensures JsRem(a, ChunkSize) % ChunkSize == a % ChunkSize
  {
    if a < 0 {
      var m := a % ChunkSize;
      var q := a / ChunkSize;
      assert a == ChunkSize * q + m;
      if m == 0 {
        assert -a == ChunkSize * (-q);
        assert (-a) % ChunkSize == 0;
      } else {
        assert -a == ChunkSize * (-q - 1) + (ChunkSize - m);
        assert (-a) % ChunkSize == ChunkSize - m;
        assert JsRem(a, ChunkSize) == m - ChunkSize;
      }
    }
  }

  /** The placer's double-remainder local coordinate and the world's `& 15`
      agree on every integer, both are the non-negative remainder by 16, and
      both rebuild the coordinate with the floor-divided chunk coordinate. */
  lemma JsLocalIsLocalCoord(v: int)
    ensures JsLocal(v) == LocalCoord(v) == v % ChunkSize
    ensures 0 <= JsLocal(v) < ChunkSize
    ensures v == ChunkSize * ChunkCoord(v) + JsLocal(v)
  {
    JsRemCongruent(v);
    var r := JsRem(v, ChunkSize);
    assert 0 < r + ChunkSize < 2 * ChunkSize;
    assert (r + ChunkSize) % ChunkSize == r % ChunkSize;
    LocalCoordDecomposes(v);
  }

  // ---------------------------------------------------------------------------
  // The pointer handler.

  datatype PointerKind = PointerDown | OtherPointerEvent

  datatype PointerEvent = PointerEvent(kind: PointerKind, button: int)

  /** How one pointer event ended. */
  datatype Outcome =
    | NotPointerDown
    | NotRightClick
    | NoTarget
    | TooFar
    | Overlap
    | NoChunk
    | IdUnavailable
    | Placed(cell: Cell, id: Byte, instance: Option<Vec3>)

  datatype Step = Step(world: World, outcome: Outcome)

  /** Stores `chunk` back under the key of the chunk holding world cell c. */
  function StoreChunkOf(w: World, c: Cell, chunk: Chunk): (r: World)
    requires w.Valid() && chunk.Valid()
    ensures r.Valid()
  {
    AddChunk(w, chunk, ChunkCoord(c.x), ChunkCoord(c.y), ChunkCoord(c.z))
  }

  /** The placement handler. `stoneId` is the numeric id of stone, `None` when
      that lookup throws (the handler catches it and writes nothing); `index`
      is the numeric-id catalogue the instance placement consults. The chunk
      is written at the local coordinates and stored back under its key. */
  function HandlePointer(w: World, index: NumericIndex, view: View, ev: PointerEvent, stoneId: Option<int>): (r: Step)
    requires w.Valid()
    ensures r.world.Valid()
    ensures !r.outcome.Placed? ==> r.world == w
    ensures r.outcome.Placed? <==>
      && ev.kind == PointerDown && ev.button == 2
      && PlacementPosition(view).Some?
      && DistSq(view.cameraPos, PlacementPosition(view).value) <= MaxRange * MaxRange
      && !(view.collider.Some? && DangerousOverlap(PlacementPosition(view).value, view.collider.value))
      && GetChunkAtWorld(w, FloorCell(PlacementPosition(view).value).x,
                            FloorCell(PlacementPosition(view).value).y,
                            FloorCell(PlacementPosition(view).value).z).Some?
      && stoneId.Some?
    ensures r.outcome.Placed? ==>
      && PlacementPosition(view).value == Centre(r.outcome.cell)
      && r.outcome.cell == FloorCell(PlacementPosition(view).value)
      && r.outcome.id == ToUint8(stoneId.value)
      && (r.outcome.instance.None? <==> stoneId.value !in index)
    ensures r.outcome.Placed? && r.outcome.instance.Some? ==>
      var cell := r.outcome.cell;
      var chunk := GetChunkAtWorld(w, cell.x, cell.y, cell.z).value;
      r.outcome.instance.value == Vec3(JsLocal(cell.x) as real + chunk.chunkPosition.x * 16.0 + 0.5,
                                       JsLocal(cell.y) as real + chunk.chunkPosition.y * 16.0 + 0.5,
                                       JsLocal(cell.z) as real + chunk.chunkPosition.z * 16.0 + 0.5)
  {
    if ev.kind != PointerDown then Step(w, NotPointerDown)
    else if ev.button != 2 then Step(w, NotRightClick)
    else match PlacementPosition(view)
      case None => Step(w, NoTarget)
      case Some(t) =>
        if DistSq(view.cameraPos, t) > MaxRange * MaxRange then Step(w, TooFar)
        else if view.collider.Some? && DangerousOverlap(t, view.collider.value) then Step(w, Overlap)
        else
          var cell := FloorCell(t);
          match GetChunkAtWorld(w, cell.x, cell.y, cell.z)
          case None => Step(w, NoChunk)
          case Some(chunk) =>
            var lx, ly, lz := JsLocal(cell.x), JsLocal(cell.y), JsLocal(cell.z);
            match stoneId
            case None => Step(w, IdUnavailable)
            case Some(id) =>
              var written := SetBlock(chunk, lx, ly, lz, id);
              var instance := AddBlockInstance(written, index, lx, ly, lz, id);
              Step(StoreChunkOf(w, cell, written), Placed(cell, ToUint8(id), instance))
  }

  /** Writing the chunk of cell c at c's local coordinates and storing it back
      changes the world at c, to the byte of `id`, and nowhere else. */
  lemma {:induction false} WriteThroughWorld(w: World, c: Cell, chunk: Chunk, id: int, q: Cell)
    requires w.Valid()
    requires GetChunkAtWorld(w, c.x, c.y, c.z) == Some(chunk)
    ensures var w' := StoreChunkOf(w, c, SetBlock(chunk, JsLocal(c.x), JsLocal(c.y), JsLocal(c.z), id));
      VoxelWorld.GetBlock(w', q.x, q.y, q.z) == if q == c then ToUint8(id) else VoxelWorld.GetBlock(w, q.x, q.y, q.z)
  {
    var written := SetBlock(chunk, JsLocal(c.x), JsLocal(c.y), JsLocal(c.z), id);
    var w' := StoreChunkOf(w, c, written);
    JsLocalIsLocalCoord(c.x);
    JsLocalIsLocalCoord(c.y);
    JsLocalIsLocalCoord(c.z);
    LocalCoordDecomposes(q.x);
    LocalCoordDecomposes(q.y);
    LocalCoordDecomposes(q.z);
    var sameChunk := (ChunkCoord(q.x), ChunkCoord(q.y), ChunkCoord(q.z)) == (ChunkCoord(c.x), ChunkCoord(c.y), ChunkCoord(c.z));
    if sameChunk {
      assert GetChunkAtWorld(w', q.x, q.y, q.z) == Some(written);
      assert GetChunkAtWorld(w, q.x, q.y, q.z) == Some(chunk);
      GetAfterSet(chunk, JsLocal(c.x), JsLocal(c.y), JsLocal(c.z), id, LocalCoord(q.x), LocalCoord(q.y), LocalCoord(q.z));
    } else {
      assert GetChunkAtWorld(w', q.x, q.y, q.z) == GetChunkAtWorld(w, q.x, q.y, q.z);
    }
  }

  /** A handled event either leaves the world untouched or, on placement,
      writes the stone byte into exactly the target cell: every other cell of
      the world reads as before. */
  lemma PlacementWritesOneCell(w: World, index: NumericIndex, view: View, ev: PointerEvent, stoneId: Option<int>, q: Cell)
    requires w.Valid()
    ensures var r := HandlePointer(w, index, view, ev, stoneId);
      VoxelWorld.GetBlock(r.world, q.x, q.y, q.z)
        == if r.outcome.Placed? && q == r.outcome.cell then r.outcome.id else VoxelWorld.GetBlock(w, q.x, q.y, q.z)
  {
    var r := HandlePointer(w, index, view, ev, stoneId);
    if r.outcome.Placed? {
      var c := r.outcome.cell;
      var chunk := GetChunkAtWorld(w, c.x, c.y, c.z).value;
      WriteThroughWorld(w, c, chunk, stoneId.value, q);
    }
  }

  /** Only a pointer-down of button 2 can change the world. */
  lemma OnlyRightClickPlaces(w: World, index: NumericIndex, view: View, ev: PointerEvent, stoneId: Option<int>)
    requires w.Valid()
    requires ev.kind != PointerDown || ev.button != 2
    ensures HandlePointer(w, index, view, ev, stoneId).world == w
  {
  }
}
