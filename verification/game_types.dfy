/** The game's enumerations, cut down to the members the model talks about.
    Each enumeration ends in a catch-all constructor for the values the
    model does not name individually. */
module GameTypes {

  /** Entity types. The Bukkit-style names some files use (MINECART_TNT,
      MINECART_COMMAND, ...) are the same constants as the Sponge-style names
      other files use (TNT_MINECART, COMMANDBLOCK_MINECART, ...). */
  datatype EntityType =
    | PlayerType
    | Boat
    | RideableMinecart | ChestedMinecart | CommandblockMinecart | FurnaceMinecart
    | HopperMinecart | MobSpawnerMinecart | TntMinecart
    | Fireball | SmallFireball
    | AreaEffectCloud
    | Snowman | Enderman | Creeper | EnderDragon | EnderCrystal | Ravager
    | Arrow | PrimedTnt | Painting | Snowball | EnderPearl | ThrownExpBottle
    | ItemFrame | Firework | SplashPotion | Egg | ArmorStand
    | Pig | Spider | Bat | Blaze | Ocelot | Cow | Zombie | PigZombie | Wolf
    | OtherEntityType(code: nat)

  /** Block and item types (the source uses one namespace for both). */
  datatype Material =
    | Air | Stone | Dirt | Water | FlowingWater | Lava
    | Piston | StickyPiston | PistonExtension | PistonHead | MovingPiston
    | Tnt | Chest | Lever | DragonEgg | Campfire | Bed
    | IronShovel | IronPickaxe | Shears | BoneMeal
    | Bucket | WaterBucket | LavaBucket | MilkBucket
    | PaintingItem | ArrowItem | SnowballItem | FireCharge | EnderPearlItem
    | ExperienceBottle | ItemFrameItem | FireworkRocket | CommandBlockMinecartItem
    | OakBoat | MinecartItem | ChestMinecartItem | FurnaceMinecartItem | TntMinecartItem
    | HopperMinecartItem | Potion | EggItem | ArmorStandItem | EndCrystal
    | SpiderSpawnEgg | BatSpawnEgg | BeeSpawnEgg | BlazeSpawnEgg | CatSpawnEgg
    | CodSpawnEgg | CowSpawnEgg | CreeperSpawnEgg | EndermanSpawnEgg
    | PigSpawnEgg | WolfSpawnEgg | ZombieSpawnEgg | ZombiePigmanSpawnEgg
      /** A material the flag table has no entry for. */
    | UnlistedMaterial(code: nat)

  /** Potion effect types. */
  datatype PotionType =
    | Slow | SlowDigging | Harm | Confusion | Blindness | Hunger | Weakness
    | Poison | Wither | Glowing | Levitation | Unluck | Bad
    | Speed | FastDigging | IncreaseDamage | Heal | Jump | Regeneration
    | NightVision | Luck
    | OtherPotion(code: nat)

  /** Why an entity is taking damage. */
  datatype DamageCause = Fall | FlyIntoWall | Drowning | FireTick | OtherDamage(code: nat)
}
