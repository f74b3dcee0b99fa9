/** The objects a cause can be made of. Java objects are identified by
    reference; here each object has an id and the world maps ids to what the
    object is. An id with no object behind it plays the role of `null`. */
module Actors {
  import opened Base
  import opened GameTypes

  type Id = nat

  /** The Java interfaces an entity object implements. */
  datatype Trait =
    | PlayerT | LivingT | HumanT | CreatureT | MonsterT | AmbientT | TameableT
    | PrimedTntT | ProjectileT | VehicleT | AreaEffectCloudT
    | TntMinecartT | ContainerMinecartT | HangingT | ArmorStandT | EnderCrystalT
    | EnderDragonT | ShulkerT | ArrowT | PigT

  /** An entity: its type, the interfaces it implements and the links the
      cause resolution follows. */
  datatype Entity = Entity(
    etype: EntityType,
    traits: set<Trait>,
    source: Option<Id>,            // who ignited a primed TNT or cast an effect cloud
    shooter: Option<Id>,           // who fired a projectile
    passengers: seq<Option<Id>>,   // who rides a vehicle
    target: Option<Id>,            // whom a creature is attacking
    owner: Option<Id>,             // who tamed a tameable entity
    flying: bool,                  // flying-ability data is present
    saddled: bool,                 // a pig carries a saddle
    vehicleData: bool,             // vehicle data is present
    npcMetadata: bool,             // the server marked the player as an NPC
    location: Location,
    origin: Option<Location>)      // where the entity was spawned, if recorded

  /** An entity of type `t` implementing `traits`, with no links and no
      flags, standing at the origin. */
  function BasicEntity(t: EntityType, traits: set<Trait>): Entity
  {
    Entity(t, traits, None, None, [], None, None, false, false, false, false,
           Location(BlockPos(0, 0, 0), Look(0, 0)), None)
  }

  /** What an object in a cause is. */
  datatype Body =
    | EntityBody(entity: Entity)
    | OfflineUser(name: string)                   // a User that is not online
    | BlockAt(at: Location, material: Material)   // a block, by its location
    | PlainObject                                 // anything else, such as a plugin

  /** An object together with its identity. */
  datatype Actor = Actor(id: Id, body: Body)

  type World = map<Id, Body>

  predicate Has(b: Body, t: Trait)
  {
    b.EntityBody? && t in b.entity.traits
  }

  predicate IsEntity(b: Body)
  {
    b.EntityBody?
  }

  predicate IsPlayer(b: Body)
  {
    Has(b, PlayerT)
  }

  /** Objects that can carry metadata: everything that is data-serializable
      except blocks. */
  predicate Trackable(b: Body)
  {
    b.EntityBody? || b.OfflineUser?
  }
}
