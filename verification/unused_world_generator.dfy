/** The earlier terrain generator: the same height map and visibility rule as
    the engine's, kept on the instance, plus a solidity query over it and a
    distance-based collider selection. */
module UnusedWorldGenerator {
  import opened Common
  import WorldGenerator

  /** `isSolid`: off the map in x, or in z as measured by the first row, is
      not solid; a missing entry of a short row compares as false; otherwise
      every block below the column height is solid, with no lower bound. */
  function IsSolid(heightMap: WorldGenerator.HeightMap, x: int, y: int, z: int): (b: bool)
    ensures x < 0 || x >= |heightMap| ==> !b
    ensures 0 <= x < |heightMap| && (z < 0 || z >= |heightMap[0]|) ==> !b
    ensures b ==> 0 <= x < |heightMap| && 0 <= z < |heightMap[x]| && y < heightMap[x][z]
  {
    if x < 0 || x >= |heightMap| then false
    else if z < 0 || z >= |heightMap[0]| then false
    else if z >= |heightMap[x]| then false
    else y < heightMap[x][z]
  }

  /** On a rectangular map, inside its bounds, solid means below the column
      height. */
  lemma IsSolidInside(heightMap: WorldGenerator.HeightMap, width: nat, depth: nat, x: int, y: int, z: int)
    requires WorldGenerator.Rectangular(heightMap, width, depth) && 0 <= x < width && 0 <= z < depth
    ensures IsSolid(heightMap, x, y, z) <==> y < heightMap[x][z]
  {
  }

  /** The visibility rule read through `isSolid`: block y of a column is
      exposed exactly when one of its four side neighbours is not solid at
      height y, or it is the column's top. */
  lemma ExposedIffSideNotSolid(heightMap: WorldGenerator.HeightMap, width: nat, depth: nat, x: int, y: int, z: int)
    requires WorldGenerator.Rectangular(heightMap, width, depth) && 0 <= x < width && 0 <= z < depth
    ensures WorldGenerator.Exposed(heightMap, width, depth, x, y, z) <==>
      || !IsSolid(heightMap, x + 1, y, z)
      || !IsSolid(heightMap, x - 1, y, z)
      || !IsSolid(heightMap, x, y, z + 1)
      || !IsSolid(heightMap, x, y, z - 1)
      || y == heightMap[x][z] - 1
  {
  }

  const ColliderRadius: real := 5.0

  /** The colliders around the player: `disposed` are the previous ones, all
      released; `active` are the block positions within the radius, in
      order. */
  datatype Colliders = Colliders(active: seq<Vec3>, disposed: seq<Vec3>)

  /** `updateCollidersAroundPlayer`. */
  function UpdateColliders(previous: seq<Vec3>, blockPositions: seq<Vec3>, player: Vec3): (r: Colliders)
    ensures r.disposed == previous
    ensures forall i :: 0 <= i < |r.active| ==>
      r.active[i] in blockPositions && DistSq(r.active[i], player) <= ColliderRadius * ColliderRadius
    ensures forall i :: 0 <= i < |blockPositions| && DistSq(blockPositions[i], player) <= ColliderRadius * ColliderRadius ==>
      blockPositions[i] in r.active
  {
    Colliders(Filter(blockPositions, (p: Vec3) => DistSq(p, player) <= ColliderRadius * ColliderRadius), previous)
  }

  /** Nothing ever fills `blockPositions`, so after any update no collider is
      active. */
  lemma NoBlocksNoColliders(previous: seq<Vec3>, player: Vec3)
    ensures UpdateColliders(previous, [], player).active == []
  {
  }
}
