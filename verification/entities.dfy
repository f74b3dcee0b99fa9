/** Classification of entities and entity types, and the walk from a
    projectile to whoever ultimately fired it. */
module Entities {
  import opened Base
  import opened GameTypes
  import opened Actors

  /** `isTamed`: no entity is not tamed; otherwise the entity must carry
      tameable data whose owner exists. */
  function IsTamed(e: Option<Entity>): (r: bool)
    ensures r ==> e.Some? && TameableT in e.value.traits && e.value.owner.Some?
    ensures e.Some? && TameableT in e.value.traits && e.value.owner.Some? ==> r
  {
    match e
    case None => false
    case Some(x) => TameableT in x.traits && x.owner.Some?
  }

  /** `isTNTBased`: primed TNT or a TNT minecart. */
  predicate IsTntBased(e: Entity)
  {
    PrimedTntT in e.traits || TntMinecartT in e.traits
  }

  /** `isFireball`: a large or a small fireball (wither skulls are not). */
  predicate IsFireball(t: EntityType)
  {
    t == Fireball || t == SmallFireball
  }

  /** `isRiddenOnUse`: a pig can be ridden iff it is saddled; any other
      entity iff it carries vehicle data. */
  predicate IsRiddenOnUse(e: Entity)
  {
    if PigT in e.traits then e.saddled else e.vehicleData
  }

  /** The seven minecart entity types. */
  const MinecartTypes: set<EntityType> :=
    {RideableMinecart, ChestedMinecart, CommandblockMinecart, FurnaceMinecart,
     HopperMinecart, MobSpawnerMinecart, TntMinecart}

  /** `isMinecart`, checked one type at a time as the source does; it agrees
      with membership in `MinecartTypes`. */
  function IsMinecart(t: EntityType): (r: bool)
    ensures r <==> t in MinecartTypes
  {
    t == RideableMinecart || t == ChestedMinecart || t == CommandblockMinecart
    || t == FurnaceMinecart || t == HopperMinecart || t == MobSpawnerMinecart
    || t == TntMinecart
  }

  /** `isVehicle`: a boat or one of the minecarts, so exactly eight types. */
  function IsVehicle(t: EntityType): (r: bool)
    ensures r <==> t in MinecartTypes + {Boat}
  {
    t == Boat || IsMinecart(t)
  }

  /** `isHostile`: monsters, anything with flying-ability data, the ender
      dragon and shulkers. */
  predicate IsHostile(e: Entity)
  {
    MonsterT in e.traits || e.flying || EnderDragonT in e.traits || ShulkerT in e.traits
  }

  /** `isNonHostile`: a creature that is not hostile; so it is neither a
      monster nor a flyer. */
  function IsNonHostile(e: Entity): (r: bool)
    ensures r <==> CreatureT in e.traits && !IsHostile(e)
    ensures r ==> MonsterT !in e.traits && !e.flying
  {
    !IsHostile(e) && CreatureT in e.traits
  }

  /** The two hostility tests split the creatures: a creature is exactly one
      of hostile and non-hostile, and nothing else is non-hostile, however
      hostile it is. */
  lemma HostilityPartition(e: Entity)
    ensures CreatureT in e.traits ==> (IsHostile(e) <==> !IsNonHostile(e))
    ensures CreatureT !in e.traits ==> !IsNonHostile(e)
  {
  }

  /** `isAmbient`. */
  predicate IsAmbient(e: Entity)
  {
    AmbientT in e.traits
  }

  /** `isNPC`: a human that is not a player; never a player. */
  function IsNpc(e: Entity): (r: bool)
    ensures r ==> PlayerT !in e.traits && HumanT in e.traits
    ensures HumanT in e.traits && PlayerT !in e.traits ==> r
  {
    HumanT in e.traits && PlayerT !in e.traits
  }

  /** `isNonPlayerCreature`: a living thing that is not a player. */
  function IsNonPlayerCreature(e: Entity): (r: bool)
    ensures r <==> LivingT in e.traits && PlayerT !in e.traits
  {
    LivingT in e.traits && !(PlayerT in e.traits)
  }

  /** `isConsideredBuildingIfUsed`: hanging entities, armor stands, ender
      crystals and container minecarts. */
  predicate IsConsideredBuildingIfUsed(e: Entity)
  {
    HangingT in e.traits || ArmorStandT in e.traits || EnderCrystalT in e.traits
    || ContainerMinecartT in e.traits
  }

  /** `isPotionArrow`: any arrow (spectral arrows are arrows too). */
  predicate IsPotionArrow(e: Entity)
  {
    ArrowT in e.traits
  }

  /** `isAoECloud`. */
  predicate IsAoECloud(t: EntityType)
  {
    t == AreaEffectCloud
  }

  // ---------------------------------------------------------------------
  // getShooter

  /** One step of `getShooter`: from a projectile to its shooter, when the
      shooter is an entity other than the projectile itself. */
  function ShooterStep(w: World, id: Id): (r: Option<Id>)
    ensures r.Some? ==> id in w && Has(w[id], ProjectileT) && r == w[id].entity.shooter
                        && r.value in w && IsEntity(w[r.value]) && r.value != id
  {
    if id in w && Has(w[id], ProjectileT) then
      var s := w[id].entity.shooter;
      if s.Some? && s.value in w && IsEntity(w[s.value]) && s.value != id then s else None
    else None
  }

  /** `getShooter`: follow shooter links from `e` while the current entity
      is a projectile shot by a different entity. `chain` is the walk, from
      `e` to the result. The source guards only against a projectile that
      shot itself and would loop forever on a longer shooter cycle; the
      walk here stops instead when the next shooter is already on the chain,
      so a result that could still step is possible only on such a cycle. */
  method GetShooter(w: World, e: Id) returns (r: Id, chain: seq<Id>)
    ensures |chain| >= 1 && chain[0] == e && chain[|chain| - 1] == r
    ensures forall i :: 0 <= i < |chain| - 1 ==> ShooterStep(w, chain[i]) == Some(chain[i + 1])
    ensures NoDuplicates(chain)
    ensures ShooterStep(w, r).Some? ==> ShooterStep(w, r).value in chain
  {
    r := e;
    chain := [e];
    ghost var visited: set<Id> := {e};
    while ShooterStep(w, r).Some? && ShooterStep(w, r).value !in chain
      invariant |chain| >= 1 && chain[0] == e && chain[|chain| - 1] == r
      invariant forall i :: 0 <= i < |chain| - 1 ==> ShooterStep(w, chain[i]) == Some(chain[i + 1])
      invariant NoDuplicates(chain)
      invariant visited == set x | x in chain
      invariant forall i :: 1 <= i < |chain| ==> chain[i] in w
      decreases w.Keys - visited
    {
      var s := ShooterStep(w, r).value;
      chain := chain + [s];
      visited := visited + {s};
      r := s;
    }
  }
}
