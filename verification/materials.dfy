/** Material classification: the flag table read by the click tests, the
    entity-item pairing, bucket contents, liquids, pistons, damage effects
    and spawn eggs. The flag table holds a representative selection of the
    source's entries; every material the model does not name is absent
    from it, as unknown materials are. */
module Materials {
  import opened Base
  import opened GameTypes
  import Entities

  // ---------------------------------------------------------------------
  // The flag table

  type Flags = bv32

  const MODIFIED_ON_RIGHT: Flags := 1
  const MODIFIED_ON_LEFT: Flags := 2
  const MODIFIES_BLOCKS: Flags := 4

  predicate IsSpawnEggMaterial(m: Material)
  {
    m.SpiderSpawnEgg? || m.BatSpawnEgg? || m.BeeSpawnEgg? || m.BlazeSpawnEgg?
    || m.CatSpawnEgg? || m.CodSpawnEgg? || m.CowSpawnEgg? || m.CreeperSpawnEgg?
    || m.EndermanSpawnEgg? || m.PigSpawnEgg? || m.WolfSpawnEgg? || m.ZombieSpawnEgg?
    || m.ZombiePigmanSpawnEgg?
  }

  /** The table entry of a material, or nothing when the table has none. */
  function MaterialFlags(m: Material): Option<Flags>
  {
    match m
    case Air => Some(0)
    case Stone => Some(0)
    case Dirt => Some(0)
    case Water => Some(0)
    case Lava => Some(0)
    case StickyPiston => Some(0)
    case Piston => Some(0)
    case PistonHead => Some(0)
    case MovingPiston => Some(0)
    case Tnt => Some(MODIFIED_ON_RIGHT)
    case Chest => Some(MODIFIED_ON_RIGHT)
    case Lever => Some(MODIFIED_ON_RIGHT)
    case DragonEgg => Some(MODIFIED_ON_LEFT | MODIFIED_ON_RIGHT)
    case Campfire => Some(MODIFIED_ON_RIGHT | MODIFIED_ON_LEFT)
    case IronShovel => Some(MODIFIES_BLOCKS)
    case IronPickaxe => Some(0)
    case BoneMeal => Some(MODIFIES_BLOCKS)
    case Shears => Some(MODIFIES_BLOCKS)
    case Bucket => Some(0)
    case WaterBucket => Some(0)
    case LavaBucket => Some(0)
    case MilkBucket => Some(0)
    case PaintingItem => Some(0)
    case ArrowItem => Some(0)
    case SnowballItem => Some(0)
    case FireCharge => Some(0)
    case EnderPearlItem => Some(0)
    case ExperienceBottle => Some(0)
    case ItemFrameItem => Some(0)
    case FireworkRocket => Some(0)
    case CommandBlockMinecartItem => Some(0)
    case MinecartItem => Some(0)
    case ChestMinecartItem => Some(0)
    case FurnaceMinecartItem => Some(0)
    case TntMinecartItem => Some(0)
    case HopperMinecartItem => Some(0)
    case Potion => Some(0)
    case EggItem => Some(0)
    case ArmorStandItem => Some(0)
    case EndCrystal => Some(0)
    case OakBoat => Some(0)            // every boat item, from the boat tag
    case Bed => Some(MODIFIED_ON_RIGHT) // every bed, from the bed tag
    case _ => if IsSpawnEggMaterial(m) then Some(0) else None
  }

  /** `isBlockModifiedOnClick`: conservative, so a material without an entry
      counts as modified; otherwise a right click tests the right-click bit
      and a left click the left-click bit. */
  function IsBlockModifiedOnClick(m: Material, rightClick: bool): (r: bool)
    ensures MaterialFlags(m).None? ==> r
    ensures MaterialFlags(m).Some? ==>
              (r <==> MaterialFlags(m).value & (if rightClick then MODIFIED_ON_RIGHT else MODIFIED_ON_LEFT) != 0)
  {
    var flags := MaterialFlags(m);
    flags.None?
    || (rightClick && flags.value & MODIFIED_ON_RIGHT == MODIFIED_ON_RIGHT)
    || (!rightClick && flags.value & MODIFIED_ON_LEFT == MODIFIED_ON_LEFT)
  }

  /** `isItemAppliedToBlock`: the block plays no part; an item without an
      entry, or one carrying the modifies-blocks bit, is applied. */
  function IsItemAppliedToBlock(item: Material, block: Material): (r: bool)
    ensures r <==> MaterialFlags(item).None? || MaterialFlags(item).value & MODIFIES_BLOCKS != 0
  {
    var flags := MaterialFlags(item);
    flags.None? || flags.value & MODIFIES_BLOCKS == MODIFIES_BLOCKS
  }

  /** The click table's representative answers: a dragon egg is modified by
      either click, a chest by a right click only, stone by neither, and an
      unknown material by both. */
  lemma ClickExamples(code: nat)
    ensures IsBlockModifiedOnClick(DragonEgg, true) && IsBlockModifiedOnClick(DragonEgg, false)
    ensures IsBlockModifiedOnClick(Chest, true) && !IsBlockModifiedOnClick(Chest, false)
    ensures !IsBlockModifiedOnClick(Stone, true) && !IsBlockModifiedOnClick(Stone, false)
    ensures IsBlockModifiedOnClick(UnlistedMaterial(code), true) && IsBlockModifiedOnClick(UnlistedMaterial(code), false)
  {
    assert !IsSpawnEggMaterial(UnlistedMaterial(code));
    assert MaterialFlags(UnlistedMaterial(code)).None?;
    assert MaterialFlags(DragonEgg) == Some(3) && MaterialFlags(Chest) == Some(1);
  }

  /** Bone meal is applied to a block, an iron pickaxe is not, and an
      unknown item is. */
  lemma AppliedExamples(code: nat)
    ensures IsItemAppliedToBlock(BoneMeal, Dirt) && !IsItemAppliedToBlock(IronPickaxe, Stone)
    ensures IsItemAppliedToBlock(UnlistedMaterial(code), Stone)
  {
    assert !IsSpawnEggMaterial(UnlistedMaterial(code));
    assert MaterialFlags(UnlistedMaterial(code)).None?;
    assert MaterialFlags(BoneMeal) == Some(4) && MaterialFlags(IronPickaxe) == Some(0);
  }


  // ---------------------------------------------------------------------
  // Entities and their items

  /** A bidirectional map, kept as the map and its inverse. */
  datatype BiMap = BiMap(fwd: map<EntityType, Material>, bwd: map<Material, EntityType>)

  /** The two directions are inverse to each other. */
  predicate ValidBiMap(b: BiMap)
  {
    (forall k :: k in b.fwd ==> b.fwd[k] in b.bwd && b.bwd[b.fwd[k]] == k)
    && (forall v :: v in b.bwd ==> b.bwd[v] in b.fwd && b.fwd[b.bwd[v]] == v)
  }

  datatype BiMapError = ValueAlreadyPresent(value: Material)

  /** The bidirectional map's `put`: binding a value that another key
      already holds is refused; otherwise the key's old value, if any, is
      unbound and the new pair is stored. */
  function BiPut(b: BiMap, k: EntityType, v: Material): (r: Result<BiMap, BiMapError>)
    requires ValidBiMap(b)
    ensures r.Err? <==> v in b.bwd && b.bwd[v] != k
    ensures r.Ok? ==> ValidBiMap(r.value) && k in r.value.fwd && r.value.fwd[k] == v
    ensures r.Ok? ==> forall k' :: k' != k ==> (k' in r.value.fwd <==> k' in b.fwd)
    ensures r.Ok? ==> forall k' :: k' != k && k' in b.fwd ==> r.value.fwd[k'] == b.fwd[k']
  {
    if v in b.bwd && b.bwd[v] != k then Err(ValueAlreadyPresent(v))
    else
      var bwd := if k in b.fwd then b.bwd - {b.fwd[k]} else b.bwd;
      Ok(BiMap(b.fwd[k := v], bwd[v := k]))
  }

  /** The pairs stored into the entity-item map, in order, in four runs of
      five. */
  const ENTITY_ITEM_PAIRS: seq<(EntityType, Material)> :=
    PROJECTILE_PAIRS + PLACED_PAIRS + CART_PAIRS + THROWN_PAIRS

  const PROJECTILE_PAIRS: seq<(EntityType, Material)> := [
    (Painting, PaintingItem), (Arrow, ArrowItem), (Snowball, SnowballItem),
    (Fireball, FireCharge), (EnderPearl, EnderPearlItem)]

  const PLACED_PAIRS: seq<(EntityType, Material)> := [
    (ThrownExpBottle, ExperienceBottle), (ItemFrame, ItemFrameItem), (PrimedTnt, Tnt),
    (Firework, FireworkRocket), (CommandblockMinecart, CommandBlockMinecartItem)]

  const CART_PAIRS: seq<(EntityType, Material)> := [
    (Boat, OakBoat), (RideableMinecart, MinecartItem), (ChestedMinecart, ChestMinecartItem),
    (EntityType.FurnaceMinecart, FurnaceMinecartItem), (TntMinecart, TntMinecartItem)]

  const THROWN_PAIRS: seq<(EntityType, Material)> := [
    (EntityType.HopperMinecart, HopperMinecartItem), (SplashPotion, Potion), (Egg, EggItem),
    (ArmorStand, ArmorStandItem), (EnderCrystal, EndCrystal)]

  /** Stores the pairs one after another, stopping at the first refusal. */
  function PutAll(b: BiMap, pairs: seq<(EntityType, Material)>): (r: Result<BiMap, BiMapError>)
    requires ValidBiMap(b)
    ensures r.Ok? ==> ValidBiMap(r.value)
    ensures r.Ok? ==> forall i :: 0 <= i < |pairs| ==> pairs[i].0 in r.value.fwd
    ensures r.Ok? ==> b.fwd.Keys <= r.value.fwd.Keys
    decreases |pairs|
  {
    if pairs == [] then Ok(b)
    else
      match BiPut(b, pairs[0].0, pairs[0].1)
      case Err(e) => Err(e)
      case Ok(b') =>
        var r := PutAll(b', pairs[1..]);
        if r.Ok? then
          assert forall i :: 1 <= i < |pairs| ==> pairs[i] == pairs[1..][i - 1];
          r
        else r
  }

  /** The pairs' keys are pairwise distinct, and so are their values. */
  predicate DistinctPairs(pairs: seq<(EntityType, Material)>)
  {
    forall i, j :: 0 <= i < j < |pairs| ==> pairs[i].0 != pairs[j].0 && pairs[i].1 != pairs[j].1
  }

  /** Storing pairs with distinct keys and distinct values, none of them
      bound yet, is never refused and binds every pair. */
  lemma {:induction false} PutAllDistinct(b: BiMap, pairs: seq<(EntityType, Material)>)
    requires ValidBiMap(b) && DistinctPairs(pairs)
    requires forall i :: 0 <= i < |pairs| ==> pairs[i].0 !in b.fwd && pairs[i].1 !in b.bwd
    ensures PutAll(b, pairs).Ok?
    ensures forall i :: 0 <= i < |pairs| ==> PutAll(b, pairs).value.fwd[pairs[i].0] == pairs[i].1
    ensures forall k :: k in b.fwd ==> k in PutAll(b, pairs).value.fwd && PutAll(b, pairs).value.fwd[k] == b.fwd[k]
    decreases |pairs|
  {
    if pairs != [] {
      var b' := BiPut(b, pairs[0].0, pairs[0].1).value;
      var rest := pairs[1..];
      assert forall i :: 0 <= i < |rest| ==> rest[i] == pairs[i + 1];
      forall i | 0 <= i < |rest|
        ensures rest[i].0 !in b'.fwd && rest[i].1 !in b'.bwd
      {
        assert rest[i].0 != pairs[0].0 && rest[i].1 != pairs[0].1;
      }
      PutAllDistinct(b', rest);
      var r := PutAll(b', rest).value;
      assert PutAll(b, pairs).value == r;
      forall i | 0 <= i < |pairs|
        ensures r.fwd[pairs[i].0] == pairs[i].1
      {
        if i > 0 { assert pairs[i] == rest[i - 1]; }
      }
    }
  }

  /** The entity-item map as built by the static initialiser. */
  function EntityItems(): (r: BiMap)
    ensures ValidBiMap(r)
  {
    var built := PutAll(BiMap(map[], map[]), ENTITY_ITEM_PAIRS);
    if built.Ok? then built.value else BiMap(map[], map[])
  }

  /** `getRelatedMaterial`: the item paired with an entity type, if any. */
  function GetRelatedMaterial(t: EntityType): Option<Material>
  {
    if t in EntityItems().fwd then Some(EntityItems().fwd[t]) else None
  }

  /** `getRelatedEntity`: the entity type paired with an item, read through
      the inverse map. */
  function GetRelatedEntity(m: Material): Option<EntityType>
  {
    if m in EntityItems().bwd then Some(EntityItems().bwd[m]) else None
  }

  /** The two lookups undo each other in both directions. */
  lemma RelatedRoundTrip(t: EntityType, m: Material)
    ensures GetRelatedMaterial(t).Some? ==> GetRelatedEntity(GetRelatedMaterial(t).value) == Some(t)
    ensures GetRelatedEntity(m).Some? ==> GetRelatedMaterial(GetRelatedEntity(m).value) == Some(m)
  {
  }

  /** The position of an entity type among the initialiser's keys (types
      that are not keys share the last position). */
  function KeyRank(t: EntityType): nat
  {
    match t
    case Painting => 0 case Arrow => 1 case Snowball => 2 case Fireball => 3
    case EnderPearl => 4 case ThrownExpBottle => 5 case ItemFrame => 6 case PrimedTnt => 7
    case Firework => 8 case CommandblockMinecart => 9 case Boat => 10 case RideableMinecart => 11
    case ChestedMinecart => 12 case FurnaceMinecart => 13 case TntMinecart => 14
    case HopperMinecart => 15 case SplashPotion => 16 case Egg => 17 case ArmorStand => 18
    case EnderCrystal => 19 case _ => 20
  }

  /** The position of an item among the initialiser's values. */
  function ValueRank(m: Material): nat
  {
    match m
    case PaintingItem => 0 case ArrowItem => 1 case SnowballItem => 2 case FireCharge => 3
    case EnderPearlItem => 4 case ExperienceBottle => 5 case ItemFrameItem => 6 case Tnt => 7
    case FireworkRocket => 8 case CommandBlockMinecartItem => 9 case OakBoat => 10
    case MinecartItem => 11 case ChestMinecartItem => 12 case FurnaceMinecartItem => 13
    case TntMinecartItem => 14 case HopperMinecartItem => 15 case Potion => 16 case EggItem => 17
    case ArmorStandItem => 18 case EndCrystal => 19 case _ => 20
  }

  /** Neighbouring pairs have strictly increasing ranks on both sides. */
  predicate RanksIncrease(pairs: seq<(EntityType, Material)>)
    decreases |pairs|
  {
    |pairs| < 2
    || (KeyRank(pairs[0].0) < KeyRank(pairs[1].0) && ValueRank(pairs[0].1) < ValueRank(pairs[1].1)
        && RanksIncrease(pairs[1..]))
  }

  /** Increasing ranks make keys and values pairwise distinct. */
  lemma {:induction false} RanksIncreaseDistinct(pairs: seq<(EntityType, Material)>)
    requires RanksIncrease(pairs)
    ensures DistinctPairs(pairs)
    ensures forall j :: 0 < j < |pairs| ==>
              KeyRank(pairs[0].0) < KeyRank(pairs[j].0) && ValueRank(pairs[0].1) < ValueRank(pairs[j].1)
    decreases |pairs|
  {
    if |pairs| > 1 {
      var rest := pairs[1..];
      assert forall i :: 0 <= i < |rest| ==> rest[i] == pairs[i + 1];
      RanksIncreaseDistinct(rest);
      assert pairs[1] == rest[0];
      forall i, j | 0 <= i < j < |pairs|
        ensures pairs[i].0 != pairs[j].0 && pairs[i].1 != pairs[j].1
      {
        if i > 0 { assert pairs[i] == rest[i - 1] && pairs[j] == rest[j - 1]; }
        else if j > 1 { assert pairs[j] == rest[j - 1]; }
      }
      forall j | 0 < j < |pairs|
        ensures KeyRank(pairs[0].0) < KeyRank(pairs[j].0) && ValueRank(pairs[0].1) < ValueRank(pairs[j].1)
      {
        if j > 1 { assert pairs[j] == rest[j - 1]; }
      }
    }
  }

  /** Two runs with increasing ranks, the first ending below where the
      second starts, join into one. */
  lemma {:induction false} RanksIncreaseJoin(a: seq<(EntityType, Material)>, b: seq<(EntityType, Material)>)
    requires RanksIncrease(a) && RanksIncrease(b)
    requires |a| > 0 && |b| > 0
    requires KeyRank(a[|a| - 1].0) < KeyRank(b[0].0) && ValueRank(a[|a| - 1].1) < ValueRank(b[0].1)
    ensures RanksIncrease(a + b)
    decreases |a|
  {
    var ab := a + b;
    assert ab[0] == a[0];
    if |a| == 1 {
      assert ab[1] == b[0];
      assert ab[1..] == b;
    } else {
      assert a[1..][|a| - 2] == a[|a| - 1];
      RanksIncreaseJoin(a[1..], b);
      assert ab[1] == a[1];
      assert ab[1..] == a[1..] + b;
    }
  }

  /** The initialiser's pairs are all stored: building the map is never
      refused and every listed entity type gets its listed item. */
  lemma EntityItemsHoldsPairs()
    ensures PutAll(BiMap(map[], map[]), ENTITY_ITEM_PAIRS).Ok?
    ensures forall i :: 0 <= i < |ENTITY_ITEM_PAIRS| ==> GetRelatedMaterial(ENTITY_ITEM_PAIRS[i].0) == Some(ENTITY_ITEM_PAIRS[i].1)
  {
    PairsRanked();
    RanksIncreaseDistinct(ENTITY_ITEM_PAIRS);
    PutAllDistinct(BiMap(map[], map[]), ENTITY_ITEM_PAIRS);
  }

  /** A run of five pairs ranked `start` to `start + 4` on both sides. */
  predicate RankedRun(run: seq<(EntityType, Material)>, start: nat)
  {
    |run| == 5
    && KeyRank(run[0].0) == start && ValueRank(run[0].1) == start
    && KeyRank(run[1].0) == start + 1 && ValueRank(run[1].1) == start + 1
    && KeyRank(run[2].0) == start + 2 && ValueRank(run[2].1) == start + 2
    && KeyRank(run[3].0) == start + 3 && ValueRank(run[3].1) == start + 3
    && KeyRank(run[4].0) == start + 4 && ValueRank(run[4].1) == start + 4
  }

  /** A ranked run has increasing ranks. */
  lemma RankedRunIncreases(run: seq<(EntityType, Material)>, start: nat)
    requires RankedRun(run, start)
    ensures RanksIncrease(run)
  {
    assert RanksIncrease(run[4..]);
    assert run[3..][1..] == run[4..];
    assert RanksIncrease(run[3..]);
    assert run[2..][1..] == run[3..];
    assert RanksIncrease(run[2..]);
    assert run[1..][1..] == run[2..];
    assert RanksIncrease(run[1..]);
  }

  /** Four consecutive ranked runs join into one run with increasing ranks. */
  lemma RankedRunsJoin(a: seq<(EntityType, Material)>, b: seq<(EntityType, Material)>,
                       c: seq<(EntityType, Material)>, d: seq<(EntityType, Material)>)
    requires RankedRun(a, 0) && RankedRun(b, 5) && RankedRun(c, 10) && RankedRun(d, 15)
    ensures RanksIncrease(a + b + c + d)
  {
    RankedRunIncreases(a, 0);
    RankedRunIncreases(b, 5);
    RankedRunIncreases(c, 10);
    RankedRunIncreases(d, 15);
    RanksIncreaseJoin(a, b);
    var ab := a + b;
    assert ab[|ab| - 1] == b[4];
    RanksIncreaseJoin(ab, c);
    var abc := ab + c;
    assert abc[|abc| - 1] == c[4];
    RanksIncreaseJoin(abc, d);
  }

  lemma ProjectilePairsRanked() ensures RankedRun(PROJECTILE_PAIRS, 0) { }
  lemma PlacedPairsRanked() ensures RankedRun(PLACED_PAIRS, 5) { }
  lemma CartPairsRanked() ensures RankedRun(CART_PAIRS, 10) { }
  lemma ThrownPairsRanked() ensures RankedRun(THROWN_PAIRS, 15)
  {
    ThrownRanks();
    var t := THROWN_PAIRS;
    assert t[0] == (EntityType.HopperMinecart, HopperMinecartItem);
    assert t[1] == (SplashPotion, Potion);
    assert t[2] == (Egg, EggItem);
    assert t[3] == (ArmorStand, ArmorStandItem);
    assert t[4] == (EnderCrystal, EndCrystal);
  }

  // The ranks of the last run are split over two lemmas, each evaluating
  // one rank function, to keep each proof small.
  lemma ThrownRanks()
    ensures KeyRank(EntityType.HopperMinecart) == 15 && ValueRank(HopperMinecartItem) == 15
    ensures KeyRank(SplashPotion) == 16 && ValueRank(Potion) == 16
    ensures KeyRank(Egg) == 17 && ValueRank(EggItem) == 17
    ensures KeyRank(ArmorStand) == 18 && ValueRank(ArmorStandItem) == 18
    ensures KeyRank(EnderCrystal) == 19 && ValueRank(EndCrystal) == 19
  {
    ThrownKeyRanks();
    ThrownValueRanks();
  }

  lemma ThrownKeyRanks()
    ensures KeyRank(EntityType.HopperMinecart) == 15 && KeyRank(SplashPotion) == 16 && KeyRank(Egg) == 17
    ensures KeyRank(ArmorStand) == 18 && KeyRank(EnderCrystal) == 19
  {
  }

  lemma ThrownValueRanks()
    ensures ValueRank(HopperMinecartItem) == 15 && ValueRank(Potion) == 16 && ValueRank(EggItem) == 17
    ensures ValueRank(ArmorStandItem) == 18 && ValueRank(EndCrystal) == 19
  {
  }

  /** The initialiser's pairs have increasing ranks. */
  lemma PairsRanked()
    ensures RanksIncrease(ENTITY_ITEM_PAIRS)
  {
    ProjectilePairsRanked();
    PlacedPairsRanked();
    CartPairsRanked();
    ThrownPairsRanked();
    RankedRunsJoin(PROJECTILE_PAIRS, PLACED_PAIRS, CART_PAIRS, THROWN_PAIRS);
  }

  /** The boat and minecart items. */
  const VEHICLE_ITEMS: set<Material> :=
    {OakBoat, MinecartItem, ChestMinecartItem, FurnaceMinecartItem, TntMinecartItem,
     HopperMinecartItem, CommandBlockMinecartItem}

  /** The `i`-th pair of the initialiser reads back in both directions. */
  lemma PairRelated(i: nat)
    requires i < |ENTITY_ITEM_PAIRS|
    ensures GetRelatedMaterial(ENTITY_ITEM_PAIRS[i].0) == Some(ENTITY_ITEM_PAIRS[i].1)
    ensures GetRelatedEntity(ENTITY_ITEM_PAIRS[i].1) == Some(ENTITY_ITEM_PAIRS[i].0)
  {
    EntityItemsHoldsPairs();
    RelatedRoundTrip(ENTITY_ITEM_PAIRS[i].0, ENTITY_ITEM_PAIRS[i].1);
  }

  /** A stored pair, named by its entity type and item. */
  lemma StoredPair(t: EntityType, m: Material, i: nat)
    requires i < |ENTITY_ITEM_PAIRS| && ENTITY_ITEM_PAIRS[i] == (t, m)
    ensures GetRelatedMaterial(t) == Some(m) && GetRelatedEntity(m) == Some(t)
  {
    PairRelated(i);
  }

  /** The item table agrees with the vehicle classification: every boat or
      minecart item is related to a vehicle type, and to a minecart type
      exactly when it is not the boat. */
  lemma RelatedVehicles(m: Material)
    requires m in VEHICLE_ITEMS
    ensures GetRelatedEntity(m).Some? && Entities.IsVehicle(GetRelatedEntity(m).value)
    ensures Entities.IsMinecart(GetRelatedEntity(m).value) <==> m != OakBoat
  {
    var p := ENTITY_ITEM_PAIRS;
    var i := VehiclePosition(m);
    StoredPair(p[i].0, m, i);
  }

  /** Conversely, every vehicle type but the spawner minecart, which has no
      item, is related to a boat or minecart item. */
  lemma VehiclesHaveItems(t: EntityType)
    requires Entities.IsVehicle(t) && t != MobSpawnerMinecart
    ensures GetRelatedMaterial(t).Some? && GetRelatedMaterial(t).value in VEHICLE_ITEMS
    ensures Entities.IsMinecart(t) <==> GetRelatedMaterial(t).value != OakBoat
  {
    var p := ENTITY_ITEM_PAIRS;
    var i := VehicleTypePosition(t);
    StoredPair(t, p[i].1, i);
  }

  /** `isMinecart` on items: the six minecart items. */
  predicate IsMinecartItem(m: Material)
  {
    m == MinecartItem || m == CommandBlockMinecartItem || m == TntMinecartItem
    || m == HopperMinecartItem || m == FurnaceMinecartItem || m == ChestMinecartItem
  }

  /** The item test and the entity test agree through the item table: a
      minecart item is related to a minecart type, ... */
  lemma MinecartItemsRelate(m: Material)
    requires IsMinecartItem(m)
    ensures m in VEHICLE_ITEMS
    ensures GetRelatedEntity(m).Some? && Entities.IsMinecart(GetRelatedEntity(m).value)
  {
    RelatedVehicles(m);
  }

  /** ... the one boat or minecart item that is not a minecart item is
      related to a vehicle that is not a minecart, ... */
  lemma BoatItemRelates(m: Material)
    requires m in VEHICLE_ITEMS && !IsMinecartItem(m)
    ensures GetRelatedEntity(m).Some? && Entities.IsVehicle(GetRelatedEntity(m).value)
    ensures !Entities.IsMinecart(GetRelatedEntity(m).value)
  {
    RelatedVehicles(m);
  }

  /** ... and every minecart type that has an item is related to a minecart
      item. */
  lemma MinecartTypesRelate(t: EntityType)
    requires Entities.IsMinecart(t) && t != MobSpawnerMinecart
    ensures GetRelatedMaterial(t).Some? && IsMinecartItem(GetRelatedMaterial(t).value)
  {
    VehiclesHaveItems(t);
  }

  /** Where a boat or minecart item sits among the stored pairs. */
  function VehiclePosition(m: Material): (i: nat)
    requires m in VEHICLE_ITEMS
    ensures 9 <= i <= 15 && ENTITY_ITEM_PAIRS[i].1 == m
    ensures Entities.IsVehicle(ENTITY_ITEM_PAIRS[i].0)
    ensures Entities.IsMinecart(ENTITY_ITEM_PAIRS[i].0) <==> m != OakBoat
  {
    assert ENTITY_ITEM_PAIRS[9..16] == [PLACED_PAIRS[4]] + CART_PAIRS + [THROWN_PAIRS[0]];
    match m
    case CommandBlockMinecartItem => 9
    case OakBoat => 10
    case MinecartItem => 11
    case ChestMinecartItem => 12
    case FurnaceMinecartItem => 13
    case TntMinecartItem => 14
    case HopperMinecartItem => 15
  }

  /** Where a vehicle type with an item sits among the stored pairs. */
  function VehicleTypePosition(t: EntityType): (i: nat)
    requires Entities.IsVehicle(t) && t != MobSpawnerMinecart
    ensures 9 <= i <= 15 && ENTITY_ITEM_PAIRS[i].0 == t
    ensures ENTITY_ITEM_PAIRS[i].1 in VEHICLE_ITEMS
    ensures Entities.IsMinecart(t) <==> ENTITY_ITEM_PAIRS[i].1 != OakBoat
  {
    assert ENTITY_ITEM_PAIRS[9..16] == [PLACED_PAIRS[4]] + CART_PAIRS + [THROWN_PAIRS[0]];
    match t
    case CommandblockMinecart => 9
    case Boat => 10
    case RideableMinecart => 11
    case ChestedMinecart => 12
    case FurnaceMinecart => 13
    case TntMinecart => 14
    case HopperMinecart => 15
  }

  // ---------------------------------------------------------------------
  // Buckets and liquids

  predicate IsWater(m: Material)
  {
    m == Water || m == FlowingWater
  }

  predicate IsLava(m: Material)
  {
    m == Lava
  }

  /** `isLiquid`: water or lava. */
  function IsLiquid(m: Material): (r: bool)
    ensures r <==> m in {Water, FlowingWater, Lava}
  {
    IsWater(m) || IsLava(m)
  }

  /** `getBucketBlockMaterial`: lava for a lava bucket; water for a water
      bucket and, by default, for anything else. */
  function GetBucketBlockMaterial(m: Material): (r: Material)
    ensures IsLiquid(r)
    ensures IsLava(r) <==> m == LavaBucket
  {
    match m
    case LavaBucket => Lava
    case WaterBucket => Water
    case _ => Water
  }

  /** `isPistonBlock`: the piston, the sticky piston, the extension and the
      head; the moving piston is not included. */
  function IsPistonBlock(m: Material): (r: bool)
    ensures r <==> m in {Piston, StickyPiston, PistonExtension, PistonHead}
  {
    m == Piston || m == StickyPiston || m == PistonExtension || m == PistonHead
  }

  /** `isBed`. */
  predicate IsBed(m: Material)
  {
    m == Bed
  }

  // ---------------------------------------------------------------------
  // Potions

  /** The potion effects considered harmful. */
  const DAMAGE_EFFECTS: set<PotionType> :=
    {Slow, SlowDigging, Harm, Confusion, Blindness, Hunger, Weakness, Poison,
     Wither, Glowing, Levitation, Unluck, Bad}

  /** `hasDamageEffect`: the effects are scanned in order and the scan stops
      at the first harmful one. */
  method HasDamageEffect(effects: seq<PotionType>) returns (r: bool)
    ensures r <==> exists i :: 0 <= i < |effects| && effects[i] in DAMAGE_EFFECTS
  {
    var i := 0;
    while i < |effects|
      invariant 0 <= i <= |effects|
      invariant forall j :: 0 <= j < i ==> effects[j] !in DAMAGE_EFFECTS
    {
      if effects[i] in DAMAGE_EFFECTS {
        return true;
      }
      i := i + 1;
    }
    return false;
  }

  // ---------------------------------------------------------------------
  // Spawn eggs

  /** `isSpawnEgg`: nothing is not a spawn egg. */
  function IsSpawnEgg(m: Option<Material>): (r: bool)
    ensures r <==> m.Some? && IsSpawnEggMaterial(m.value)
  {
    if m.None? then false else IsSpawnEggMaterial(m.value)
  }

  /** `getEntitySpawnEgg`: the entity type an egg hatches, with the
      source's pairings (a bee egg gives a blaze, a cat egg an ocelot, a cod
      egg a cow); anything not listed, pig eggs included, gives a pig. */
  function GetEntitySpawnEgg(m: Material): (r: EntityType)
  {
    match m
    case SpiderSpawnEgg => Spider
    case BatSpawnEgg => Bat
    case BeeSpawnEgg => Blaze
    case BlazeSpawnEgg => Blaze
    case CatSpawnEgg => Ocelot
    case CodSpawnEgg => Cow
    case CowSpawnEgg => Cow
    case CreeperSpawnEgg => Creeper
    case EndermanSpawnEgg => Enderman
    case WolfSpawnEgg => Wolf
    case ZombiePigmanSpawnEgg => PigZombie
    case ZombieSpawnEgg => Zombie
    case _ => Pig
  }

  /** Every material that is not a spawn egg hatches a pig. */
  lemma SpawnEggDefaults(m: Material)
    ensures !IsSpawnEggMaterial(m) ==> GetEntitySpawnEgg(m) == Pig
  {
  }

  /** The eggs the table pairs up differently share their entity type, and
      a pig egg hatches a pig. */
  lemma SpawnEggPairings()
    ensures GetEntitySpawnEgg(BeeSpawnEgg) == GetEntitySpawnEgg(BlazeSpawnEgg) == Blaze
    ensures GetEntitySpawnEgg(CodSpawnEgg) == GetEntitySpawnEgg(CowSpawnEgg) == Cow
    ensures IsSpawnEgg(Some(PigSpawnEgg)) && GetEntitySpawnEgg(PigSpawnEgg) == Pig
    ensures !IsSpawnEgg(None)
  {
  }

  /** Spawn eggs are in the flag table with no bits, so clicking one is
      never a modification. */
  lemma SpawnEggsHaveNoFlags(m: Material)
    requires IsSpawnEgg(Some(m))
    ensures MaterialFlags(m) == Some(0)
    ensures !IsBlockModifiedOnClick(m, true) && !IsBlockModifiedOnClick(m, false)
    ensures !IsItemAppliedToBlock(m, Stone)
  {
  }
}
