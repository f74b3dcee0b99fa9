/** The platform's spawn-protection region: the server's protected square
    around the first world's spawn point, as a region spanning the world's
    whole height. */
module SpawnProtection {
  import opened Base

  /** The id the spawn-protection region is given. */
  const SPAWN_REGION_ID: string := "__spawn_protection__"

  /** A cuboid region between two corner blocks. */
  datatype CuboidRegion = CuboidRegion(id: string, corner1: BlockPos, corner2: BlockPos)

  function Min(a: int, b: int): int { if a <= b then a else b }
  function Max(a: int, b: int): int { if a <= b then b else a }

  /** A block lies in a cuboid iff each coordinate lies between the
      corners' coordinates, whichever corner is the smaller. */
  predicate Contains(r: CuboidRegion, p: BlockPos)
  {
    && Min(r.corner1.x, r.corner2.x) <= p.x <= Max(r.corner1.x, r.corner2.x)
    && Min(r.corner1.y, r.corner2.y) <= p.y <= Max(r.corner1.y, r.corner2.y)
    && Min(r.corner1.z, r.corner2.z) <= p.z <= Max(r.corner1.z, r.corner2.z)
  }

  /** What the platform knows of a world: whether it is a server world,
      its unique id, spawn block and height range. */
  datatype WorldInfo = WorldInfo(isServerWorld: bool, uid: nat, spawn: BlockPos, minY: int, maxY: int)

  /** `getSpawnProtection`: `serverWorlds` are the server's world ids in load
      order and `spawnRadius` the server's spawn radius. A server world
      always lists at least one world, so reading the first is safe. */
  function GetSpawnProtection(world: WorldInfo, serverWorlds: seq<nat>, spawnRadius: int): (r: Option<CuboidRegion>)
    requires world.isServerWorld ==> |serverWorlds| > 0
    ensures r.Some? <==> world.isServerWorld && world.uid == serverWorlds[0] && spawnRadius > 0
    ensures r.Some? ==> r.value.id == SPAWN_REGION_ID
    ensures r.Some? ==> forall p :: Contains(r.value, p) <==>
              && world.spawn.x - spawnRadius <= p.x <= world.spawn.x + spawnRadius
              && Min(world.minY, world.maxY) <= p.y <= Max(world.minY, world.maxY)
              && world.spawn.z - spawnRadius <= p.z <= world.spawn.z + spawnRadius
  {
    if world.isServerWorld && world.uid == serverWorlds[0] && spawnRadius > 0 then
      var s := world.spawn;
      Some(CuboidRegion(SPAWN_REGION_ID,
                        BlockPos(s.x - spawnRadius, world.minY, s.z - spawnRadius),
                        BlockPos(s.x + spawnRadius, world.maxY, s.z + spawnRadius)))
    else None
  }

  /** The spawn block itself is protected, and so is every block of its
      column, whenever the region exists. */
  lemma SpawnColumnProtected(world: WorldInfo, serverWorlds: seq<nat>, spawnRadius: int, y: int)
    requires world.isServerWorld ==> |serverWorlds| > 0
    requires GetSpawnProtection(world, serverWorlds, spawnRadius).Some?
    requires world.minY <= y <= world.maxY
    ensures Contains(GetSpawnProtection(world, serverWorlds, spawnRadius).value, BlockPos(world.spawn.x, y, world.spawn.z))
  {
  }

  /** A larger radius protects every block a smaller one does. */
  lemma RadiusMonotone(world: WorldInfo, serverWorlds: seq<nat>, r1: int, r2: int, p: BlockPos)
    requires world.isServerWorld ==> |serverWorlds| > 0
    requires 0 < r1 <= r2
    requires GetSpawnProtection(world, serverWorlds, r1).Some?
    requires Contains(GetSpawnProtection(world, serverWorlds, r1).value, p)
    ensures GetSpawnProtection(world, serverWorlds, r2).Some?
    ensures Contains(GetSpawnProtection(world, serverWorlds, r2).value, p)
  {
  }
}
