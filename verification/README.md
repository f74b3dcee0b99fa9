# HuskyGuard decision core, modelled in Dafny

HuskyGuard is a port of WorldGuard's region protection to the Sponge server API. This project models the part of the plugin that decides who is responsible for an action and what the region rules say about it:

- **Cause resolution** (`Cause`): turning the objects involved in an event into a root-first chain. Projectiles are followed to their shooter. TNT is followed to its source, vehicles to their passengers, effect clouds to their caster, and targeting creatures to their target. Tamed animals are followed to their owner. Manually tracked parent causes are spliced in front of an object.
- **The metadata side table** (`HGMetadata`) that holds those parent causes.
- **Choosing a region associable** for a resolved cause (`AbstractListener`).
- **The region-flag filters** applied when blocks are placed or broken, and the fall-damage check (`RegionFlagsListener`).
- **The vehicle rollback** when a passenger may not enter a block (`HuskyGuardVehicleListener`).
- **The session manager's sweeps** and its NPC bypass rule (`SpongeSessionManager`).
- **Inventory stacking** (`stackPlayerInventory`) and the spawn-protection cuboid (`SpongeHuskyGuardPlatform`).
- **Entity and material classification** (`Entities`, `Materials`) and the bed and chest neighbour lookup (`Blocks`).
- **The plugin's group, permission and actor-wrapping helpers** (`HuskyGuardPlugin`), and the player wrapper (`SpongePlayer`).

Objects of the game are ids in a world map (`Actors.World`). An id missing from the map plays the part of Java's `null`. Each object is one of the following:
- an entity, carrying its type, its traits (the Java interfaces it implements) and its links;
- an offline user;
- a block at a position;
- any other object.

Positions are whole block coordinates plus a facing. Functions that can throw return a `Result`. The world's region query, `Session.testMoveTo`, the permission service and the session operations are function-valued parameters.

The doc comment of `Cause.isKnown` says a cause with no objects is known. The code returns false for it, and the model follows the code (`Causes.IsKnown`).

## Model

| member | source | states |
|---|---|---|
| HGMetadata.Put | huskyguard/src/main/java/com/codehusky/huskyguard/internal/HGMetadata.java:45-54 | after `put(t, k, v)` the entry `(t, k)` reads `v`, every other `(target, key)` entry reads as before, the targets gain `t`, and the no-empty-inner-map invariant is kept |
| HGMetadata.Remove | huskyguard/src/main/java/com/codehusky/huskyguard/internal/HGMetadata.java:99-105 | `remove(t, k)` clears `(t, k)` only; `t` stays a target iff it still holds another key; an absent target leaves the table unchanged; the invariant is kept |
| HGMetadata.GetIfPresent | huskyguard/src/main/java/com/codehusky/huskyguard/internal/HGMetadata.java:57-65 | the documented reading: the stored value when the target and key are present and the value has the expected type, otherwise nothing |
| HGMetadata.GetIfPresentAsWritten | huskyguard/src/main/java/com/codehusky/huskyguard/internal/HGMetadata.java:80-90 | the code's reading succeeds exactly when the documented one does, and then yields the target's whole inner map |
| HGMetadata.GetAfterPut | huskyguard/src/main/java/com/codehusky/huskyguard/internal/HGMetadata.java:45-90 | reading an entry just stored gives the value if it has the expected type |
| HGMetadata.GetOtherAfterPut | huskyguard/src/main/java/com/codehusky/huskyguard/internal/HGMetadata.java:45-90 | storing one entry leaves the reading of every other entry unchanged |
| HGMetadata.GetAfterRemove | huskyguard/src/main/java/com/codehusky/huskyguard/internal/HGMetadata.java:80-105 | a removed entry reads as absent |
| HGMetadata.RemoveUndoesPut | huskyguard/src/main/java/com/codehusky/huskyguard/internal/HGMetadata.java:45-105 | for a target that held nothing, put then remove restores the table exactly (the emptied target is dropped) |
| HGMetadata.AsWrittenReturnsInnerMap | huskyguard/src/main/java/com/codehusky/huskyguard/internal/HGMetadata.java:83-85 | on a target with two entries the documented reading is the value and the code's reading is the two-entry map |
| Causes.ParentOf | huskyguard/src/main/java/com/codehusky/huskyguard/cause/Cause.java:286-288 | a parent is reported only when one is stored under `worldguard.cause` for the source and it is a world object |
| Causes.InsertParents | huskyguard/src/main/java/com/codehusky/huskyguard/cause/Cause.java:284-292 | inserting parents at the index taken before the walk leaves the chain before that index untouched, and only grows the chain and `seen` |
| Causes.InsertParentsSplicesAncestors | huskyguard/src/main/java/com/codehusky/huskyguard/cause/Cause.java:284-294 | the parent loop splices the ancestors at the fixed index oldest-first (oldest ancestor, …, parent, object) and marks all of them seen without checking `seen` first |
| Causes.NoParentsNoAncestors | huskyguard/src/main/java/com/codehusky/huskyguard/cause/Cause.java:284-292 | when no object has a tracked parent, no object has ancestors, so the parent loop adds nothing |
| Causes.AncestorsFromWorld | huskyguard/src/main/java/com/codehusky/huskyguard/cause/Cause.java:286-291 | every spliced ancestor is a world object, shown as it is in the world |
| Causes.AddAll | huskyguard/src/main/java/com/codehusky/huskyguard/cause/Cause.java:257-297 | `addAll` only appends to the chain and grows `seen`. Every present element ends up seen. Every appended object is a world object. `indirect` turns on only through a newly seen cloud, targeting creature or tameable. Without manual parents each object is appended once, and every indirect branch taken sets `indirect`. What it appends is bounded from above by `AddAllWithin` |
| Causes.AddOne | huskyguard/src/main/java/com/codehusky/huskyguard/cause/Cause.java:259-294 | a null or already-seen element changes nothing; a new one is marked seen and appended last, after what its branch added. What comes before it in the step is bounded by `AddOneWithin` |
| Causes.AddOneLinksBefore | huskyguard/src/main/java/com/codehusky/huskyguard/cause/Cause.java:259-294 | for a new object, each of its links that was not seen when the step began, other than itself, lands in the chain before it |
| Causes.AddOneNoBranch | huskyguard/src/main/java/com/codehusky/huskyguard/cause/Cause.java:284-294 | an object taking no branch is appended right after its ancestors, which all become seen |
| Causes.Create | huskyguard/src/main/java/com/codehusky/huskyguard/cause/Cause.java:197-205 | a null array gives `UNKNOWN` (empty and direct). Otherwise every present object is in the chain, and the chain holds world objects only. The chain is direct unless some object takes an indirect branch. Without manual parents the ids are distinct, and the chain is indirect iff some object takes an indirect branch. The chain holds only what the inputs reach: its ids lie in every set closed under branch links and tracked parents that holds the present inputs. It is empty exactly when no input is present |
| Causes.AddAllFollows | huskyguard/src/main/java/com/codehusky/huskyguard/cause/Cause.java:259-294 | without manual parents, every object `addAll` appends has all of its branch's links already seen, so every link is walked |
| Causes.AddOneFollows | huskyguard/src/main/java/com/codehusky/huskyguard/cause/Cause.java:259-294 | the same for one element: the object appended and everything its branch appended have their links seen |
| Causes.AddAllRootFirst | huskyguard/src/main/java/com/codehusky/huskyguard/cause/Cause.java:259-294 | with no manual parents and links that always lead to a lower rank, every link of an appended object was seen before the walk or was appended earlier |
| Causes.AddOneRootFirst | huskyguard/src/main/java/com/codehusky/huskyguard/cause/Cause.java:259-294 | the same for one element, with every appended object ranked below the bound of the element |
| Causes.CreateRootFirst | huskyguard/src/main/java/com/codehusky/huskyguard/cause/Cause.java:189-205 | without manual parents and with acyclic links the chain is root first: each object's links appear at lower indices, and the root is handed back by no branch |
| Causes.AncestorsWithin | huskyguard/src/main/java/com/codehusky/huskyguard/cause/Cause.java:284-292 | the parent loop reaches only tracked parents: every ancestor of a member of a closed set is in that set |
| Causes.AddAllWithin | huskyguard/src/main/java/com/codehusky/huskyguard/cause/Cause.java:257-297 | `addAll` appends only what its elements reach: every appended object lies in each closed set holding the present elements |
| Causes.AddOneWithin | huskyguard/src/main/java/com/codehusky/huskyguard/cause/Cause.java:259-294 | one step appends only its element, what the element's branch reaches and the tracked ancestors, all inside any closed set holding the element |
| Causes.AddAllConcat | huskyguard/src/main/java/com/codehusky/huskyguard/cause/Cause.java:257-260 | the elements are walked left to right: `addAll` over `a + c` is `addAll` over `a` followed by `addAll` over `c` |
| Causes.AddAllAbsent | huskyguard/src/main/java/com/codehusky/huskyguard/cause/Cause.java:259-261 | null and missing elements are skipped: a run of them leaves the builder unchanged |
| Causes.BuiltWithin | huskyguard/src/main/java/com/codehusky/huskyguard/cause/Cause.java:197-205 | the chain `create` builds lies in every closed set holding the present inputs, and is empty when no input is present |
| Causes.CreateRootReached | huskyguard/src/main/java/com/codehusky/huskyguard/cause/Cause.java:189-205 | the first-most object is reached from the first present input: the chain is not empty, and its first object lies in every closed set holding that input |
| Causes.WalkRootReached | huskyguard/src/main/java/com/codehusky/huskyguard/cause/Cause.java:257-260 | the same root fact for the walk from the empty builder |
| Causes.CreateKeepsInputOrder | huskyguard/src/main/java/com/codehusky/huskyguard/cause/Cause.java:197-205 | inputs keep their order: when a later present input is not reached from the inputs before it, each place it takes in the chain comes after an earlier present input (with distinct ids under no manual parents, strictly after) |
| Causes.WalkKeepsInputOrder | huskyguard/src/main/java/com/codehusky/huskyguard/cause/Cause.java:257-260 | the same order fact for the walk from the empty builder |
| Causes.PlainInputsInOrder | huskyguard/src/main/java/com/codehusky/huskyguard/cause/Cause.java:197-205 | two objects without branch or parent resolve to exactly those two, in the order given, direct |
| Causes.PlainWalk | huskyguard/src/main/java/com/codehusky/huskyguard/cause/Cause.java:257-294 | the walk behind `PlainInputsInOrder`: the two objects are appended in the order given and both are seen |
| Causes.MutualTargetsNotRootFirst | huskyguard/src/main/java/com/codehusky/huskyguard/cause/Cause.java:259-281 | a wolf and a zombie targeting each other resolve to [zombie, wolf], indirect, although the zombie's target is the wolf; so the root-first order needs acyclic links |
| Causes.MutualChain | huskyguard/src/main/java/com/codehusky/huskyguard/cause/Cause.java:259-294 | two untracked objects whose indirect branches hand back each other resolve, from the first, to [second, first], indirect |
| Causes.MutualWalk | huskyguard/src/main/java/com/codehusky/huskyguard/cause/Cause.java:259-294 | the walk behind `MutualChain`: both objects end up seen, the second first in the chain, and attribution indirect |
| Causes.TargetsBranch | huskyguard/src/main/java/com/codehusky/huskyguard/cause/Cause.java:275-277 | a creature with a target in the world, and none of the earlier traits, takes the target branch, and its one link is the target |
| Causes.AddOneOverSeen | huskyguard/src/main/java/com/codehusky/huskyguard/cause/Cause.java:259-294 | an unseen object whose one link is already seen and that has no tracked parent is appended on its own |
| Causes.TamedPetBringsOwner | huskyguard/src/main/java/com/codehusky/huskyguard/cause/Cause.java:278-280 | a pet that `isTamed` reports tamed, taking the tameable branch, brings its owner into the chain, and the cause is indirect (together with Entities.java:60-63) |
| Causes.UntamedTameableIsIndirect | huskyguard/src/main/java/com/codehusky/huskyguard/cause/Cause.java:278-280 | a tameable that `isTamed` reports untamed resolves to itself alone, and is still indirect: the builder tests tameability, not tamedness (together with Entities.java:60-63) |
| Causes.IsKnown | huskyguard/src/main/java/com/codehusky/huskyguard/cause/Cause.java:94-108 | known iff some element is neither primed TNT nor a vehicle (so the empty chain is unknown) |
| Causes.GetRootCause | huskyguard/src/main/java/com/codehusky/huskyguard/cause/Cause.java:111-117 | the first element, and nothing exactly for an empty chain |
| Causes.FirstWhere | huskyguard/src/main/java/com/codehusky/huskyguard/cause/Cause.java:120-161 | the result is the first element satisfying the test, or nothing if none does |
| Causes.GetFirstPlayer | huskyguard/src/main/java/com/codehusky/huskyguard/cause/Cause.java:120-128 | the first player in chain order, or nothing |
| Causes.GetFirstEntity | huskyguard/src/main/java/com/codehusky/huskyguard/cause/Cause.java:131-139 | the first entity in chain order, or nothing |
| Causes.GetFirstNonPlayerEntity | huskyguard/src/main/java/com/codehusky/huskyguard/cause/Cause.java:142-150 | the first entity that is not a player, or nothing |
| Causes.GetFirstBlock | huskyguard/src/main/java/com/codehusky/huskyguard/cause/Cause.java:153-161 | the first block, or nothing |
| Causes.Find | huskyguard/src/main/java/com/codehusky/huskyguard/cause/Cause.java:170-182 | nothing iff no entity of the chain has one of the types; otherwise the type of the first such entity, which is one of the types |
| Causes.TrackParentCause | huskyguard/src/main/java/com/codehusky/huskyguard/cause/Cause.java:228-234 | fails with an illegal-argument error exactly for a block target; otherwise stores the parent under `worldguard.cause` and changes no other entry |
| Causes.UntrackParentCause | huskyguard/src/main/java/com/codehusky/huskyguard/cause/Cause.java:241-243 | removes the cause key of the target and no other entry |
| Causes.AppendUntracked | huskyguard/src/main/java/com/codehusky/huskyguard/cause/Cause.java:284-294 | an object with no tracked parent is appended directly after the chain built so far, with `seen` and `indirect` unchanged |
| Causes.AddOneLeaf | huskyguard/src/main/java/com/codehusky/huskyguard/cause/Cause.java:259-294 | an unseen object with no branch and no tracked parent is appended and marked seen, and nothing else changes |
| Causes.AddOneOverLeaf | huskyguard/src/main/java/com/codehusky/huskyguard/cause/Cause.java:266-294 | an unseen object whose branch yields one unseen leaf is appended right after that leaf; both become seen, and `indirect` is set iff the branch is indirect |
| Causes.SingleAncestor | huskyguard/src/main/java/com/codehusky/huskyguard/cause/Cause.java:284-292 | a trackable object whose parent has no parent of its own has that parent as its only ancestor |
| Causes.LinkedPairChain | huskyguard/src/main/java/com/codehusky/huskyguard/cause/Cause.java:266-294 | an object whose branch links to a plain object resolves to [linked, object], indirect iff its branch marks indirection |
| Causes.TrackedParentChain | huskyguard/src/main/java/com/codehusky/huskyguard/cause/Cause.java:284-294 | an object with a tracked parent resolves to [parent, object], direct |
| Causes.TrackedParentMayRepeat | huskyguard/src/main/java/com/codehusky/huskyguard/cause/Cause.java:284-290 | a tracked parent already in the chain is inserted again, so the chain can repeat an object |
| Causes.RepeatWalk | huskyguard/src/main/java/com/codehusky/huskyguard/cause/Cause.java:284-292 | the walk behind `TrackedParentMayRepeat`: the parent is handed in, then spliced in again before its child, and the chain stays direct |
| Causes.ArrowShotByPlayer | huskyguard/src/main/java/com/codehusky/huskyguard/cause/Cause.java:268-269 | an arrow shot by a player resolves to [player, arrow], direct |
| Causes.CloudIsIndirect | huskyguard/src/main/java/com/codehusky/huskyguard/cause/Cause.java:272-274 | an effect cloud from a player resolves to [player, cloud], indirect |
| Causes.TrackThenCreate | huskyguard/src/main/java/com/codehusky/huskyguard/cause/Cause.java:228-294 | after tracking a player as a pig's parent, the pig's cause is [player, pig] |
| Entities.IsTamed | huskyguard/src/main/java/com/codehusky/huskyguard/util/Entities.java:60-63 | false for null; otherwise true iff the entity is tameable and has an owner; `TamedPetBringsOwner` and `UntamedTameableIsIndirect` tie it to cause resolution |
| Entities.IsMinecart | huskyguard/src/main/java/com/codehusky/huskyguard/util/Entities.java:113-121 | true exactly for the seven minecart types; `MinecartItemsRelate` and `MinecartTypesRelate` tie it to the item table |
| Entities.IsVehicle | huskyguard/src/main/java/com/codehusky/huskyguard/util/Entities.java:102-105 | true exactly for a boat or a minecart type; `RelatedVehicles` and `VehiclesHaveItems` tie it to the item table |
| Entities.IsNonHostile | huskyguard/src/main/java/com/codehusky/huskyguard/util/Entities.java:164-166 | a creature that is not hostile, so never a monster or a flyer; `HostilityPartition` says the two tests split the creatures |
| Entities.IsNpc | huskyguard/src/main/java/com/codehusky/huskyguard/util/Entities.java:184-187 | a human that is not a player; `HumanRootWrappedUnlessNpc` shows the region associable depends on it |
| Entities.IsNonPlayerCreature | huskyguard/src/main/java/com/codehusky/huskyguard/util/Entities.java:196-198 | a living thing that is not a player; `LivingRootWrappedUnlessNonPlayer` shows the region associable depends on it |
| Entities.HostilityPartition | huskyguard/src/main/java/com/codehusky/huskyguard/util/Entities.java:149-166 | a creature is exactly one of hostile and non-hostile, and nothing that is not a creature is non-hostile |
| Entities.ShooterStep | huskyguard/src/main/java/com/codehusky/huskyguard/util/Entities.java:131-138 | one step goes from a projectile to its shooter only when the shooter is a different entity |
| Entities.GetShooter | huskyguard/src/main/java/com/codehusky/huskyguard/util/Entities.java:129-142 | the walk starts at the entity, follows shooter steps, and visits no entity twice. The result could still step only if its shooter is already on the walk, which needs a shooter cycle |
| Materials.IsBlockModifiedOnClick | huskyguard/src/main/java/com/codehusky/huskyguard/util/Materials.java:1195-1200 | true for a material without a table entry; otherwise a right click tests the right-click bit and a left click the left-click bit |
| Materials.IsItemAppliedToBlock | huskyguard/src/main/java/com/codehusky/huskyguard/util/Materials.java:1212-1215 | ignores the block: true iff the item has no entry or has the modifies-blocks bit |
| Materials.ClickExamples | huskyguard/src/main/java/com/codehusky/huskyguard/util/Materials.java:98-216 | the dragon egg is modified on both clicks, a chest on right click only, stone on neither, and an unknown material on both |
| Materials.AppliedExamples | huskyguard/src/main/java/com/codehusky/huskyguard/util/Materials.java:1212-1215 | bone meal is applied to a block, an iron pickaxe is not, and an item without an entry is |
| Materials.BiPut | huskyguard/src/main/java/com/codehusky/huskyguard/util/Materials.java:52 | a bimap `put` fails exactly when the value is already bound to another key; otherwise the key maps to the value, other keys are unchanged and the map stays bijective |
| Materials.PutAll | huskyguard/src/main/java/com/codehusky/huskyguard/util/Materials.java:76-95 | a run of `put`s that succeeds gives a bijective map holding every key and every earlier key |
| Materials.PutAllDistinct | huskyguard/src/main/java/com/codehusky/huskyguard/util/Materials.java:76-95 | puts of pairwise distinct keys and values all succeed and bind each key to its value, keeping earlier bindings |
| Materials.EntityItems | huskyguard/src/main/java/com/codehusky/huskyguard/util/Materials.java:76-95 | the entity-item map built by the initialiser is bijective |
| Materials.EntityItemsHoldsPairs | huskyguard/src/main/java/com/codehusky/huskyguard/util/Materials.java:76-95 | every initialiser pair is read back by `getRelatedMaterial` |
| Materials.PairsRanked | huskyguard/src/main/java/com/codehusky/huskyguard/util/Materials.java:76-95 | the initialiser's pairs come in strictly increasing entity and item order, so no entity type and no material is listed twice |
| Materials.RelatedRoundTrip | huskyguard/src/main/java/com/codehusky/huskyguard/util/Materials.java:840-853 | `getRelatedEntity(getRelatedMaterial(t)) == t` whenever the material exists, and the converse |
| Materials.PairRelated | huskyguard/src/main/java/com/codehusky/huskyguard/util/Materials.java:76-95 | each initialiser pair is read back by both lookups (together with Materials.java:840-853) |
| Materials.StoredPair | huskyguard/src/main/java/com/codehusky/huskyguard/util/Materials.java:76-95 | a stored (type, item) pair relates the type to the item and the item to the type (together with Materials.java:840-853) |
| Materials.RelatedVehicles | huskyguard/src/main/java/com/codehusky/huskyguard/util/Materials.java:85-91 | every boat or minecart item is related to a vehicle type, and to a minecart type exactly when it is not the boat (together with Entities.java:102-121) |
| Materials.VehiclesHaveItems | huskyguard/src/main/java/com/codehusky/huskyguard/util/Materials.java:85-91 | every vehicle type except the spawner minecart is related to a boat or minecart item, and to the boat exactly when it is not a minecart (together with Entities.java:102-121) |
| Materials.VehiclePosition | huskyguard/src/main/java/com/codehusky/huskyguard/util/Materials.java:85-91 | where each boat or minecart item sits among the stored pairs, with a vehicle type next to it |
| Materials.VehicleTypePosition | huskyguard/src/main/java/com/codehusky/huskyguard/util/Materials.java:85-91 | where each vehicle type with an item sits among the stored pairs, with a vehicle item next to it |
| Materials.MinecartItemsRelate | huskyguard/src/main/java/com/codehusky/huskyguard/util/Materials.java:968-975 | a minecart item (`isMinecart` on items) is related to a minecart entity type (together with Entities.java:113-121) |
| Materials.BoatItemRelates | huskyguard/src/main/java/com/codehusky/huskyguard/util/Materials.java:968-975 | the boat, the one vehicle item that is not a minecart item, is related to a vehicle that is not a minecart (together with Entities.java:102-121) |
| Materials.MinecartTypesRelate | huskyguard/src/main/java/com/codehusky/huskyguard/util/Materials.java:968-975 | every minecart type that has an item is related to a minecart item (together with Entities.java:113-121) |
| Materials.IsLiquid | huskyguard/src/main/java/com/codehusky/huskyguard/util/Materials.java:904-926 | liquid iff water, flowing water or lava |
| Materials.GetBucketBlockMaterial | huskyguard/src/main/java/com/codehusky/huskyguard/util/Materials.java:868-876 | always a liquid, and lava exactly for the lava bucket |
| Materials.IsPistonBlock | huskyguard/src/main/java/com/codehusky/huskyguard/util/Materials.java:955-960 | true exactly for the four piston blocks |
| Materials.HasDamageEffect | huskyguard/src/main/java/com/codehusky/huskyguard/util/Materials.java:1237-1245 | true iff some effect's type is a damage effect (so false for no effects) |
| Materials.IsSpawnEgg | huskyguard/src/main/java/com/codehusky/huskyguard/util/Materials.java:1008-1014 | false for null, otherwise true iff the material is a listed spawn egg |
| Materials.SpawnEggDefaults | huskyguard/src/main/java/com/codehusky/huskyguard/util/Materials.java:1016-1124 | an unlisted material gives a pig. The paired tests give the bee egg a blaze and the cod egg a cow. The pig egg gives a pig |
| Materials.SpawnEggsHaveNoFlags | huskyguard/src/main/java/com/codehusky/huskyguard/util/Materials.java:1195-1215 | spawn eggs have the zero entry, so they modify nothing on either click and are not applied to blocks |
| AbstractListener.EntityActsFrom | huskyguard/src/main/java/com/codehusky/huskyguard/listener/AbstractListener.java:133-142 | the origin on Paper with `usePaperEntityOrigin` when one is recorded, otherwise the current location |
| AbstractListener.CreateRegionAssociable | huskyguard/src/main/java/com/codehusky/huskyguard/listener/AbstractListener.java:121-150 | an unknown cause is a non-member, decided before the root is looked at. A player root is wrapped as a player, and a user root as an offline player. Entity and block roots become delayed overlaps at the entity's acting location or the block. Any other root is a non-member. Each direction of each case is stated |
| AbstractListener.NullCauseIsNonMember | huskyguard/src/main/java/com/codehusky/huskyguard/listener/AbstractListener.java:124-125 | the cause of a null object array associates as a non-member |
| AbstractListener.InertCauseIsNonMember | huskyguard/src/main/java/com/codehusky/huskyguard/listener/AbstractListener.java:124-125 | a chain of only primed TNT and vehicles associates as a non-member |
| AbstractListener.PlayerRootNeverOffline | huskyguard/src/main/java/com/codehusky/huskyguard/listener/AbstractListener.java:126-129 | a player root is wrapped as a player, never as an offline user |
| AbstractListener.ArrowActsAsShooter | huskyguard/src/main/java/com/codehusky/huskyguard/listener/AbstractListener.java:121-127 | an arrow a player shot associates as that player |
| AbstractListener.OriginUsedOnlyOnPaper | huskyguard/src/main/java/com/codehusky/huskyguard/listener/AbstractListener.java:134-143 | an entity with a recorded origin distinct from its location acts from the origin iff running on Paper with the option on |
| AbstractListener.HumanRootWrappedUnlessNpc | huskyguard/src/main/java/com/codehusky/huskyguard/listener/AbstractListener.java:121-143 | a known cause whose root is a human entity is wrapped as a player iff the root is not an NPC; an NPC root associates as an overlap at where it acts from (together with Entities.java:184-187) |
| AbstractListener.LivingRootWrappedUnlessNonPlayer | huskyguard/src/main/java/com/codehusky/huskyguard/listener/AbstractListener.java:121-143 | a known cause whose root is a living entity is wrapped as a player iff the root is not a non-player creature; otherwise it associates as an overlap at where it acts from (together with Entities.java:196-198) |
| RegionFlagsListener.TestState | huskyguard/src/main/java/com/codehusky/huskyguard/listener/RegionFlagsListener.java:150-152 | the per-location predicate asks the region query about the flag on behalf of the null associable |
| RegionFlagsListener.TestStateIgnoresAssociable | huskyguard/src/main/java/com/codehusky/huskyguard/listener/RegionFlagsListener.java:150-152 | two region queries that agree for the null associable give the same test, whatever they say for members or players |
| RegionFlagsListener.FindIffInChain | huskyguard/src/main/java/com/codehusky/huskyguard/cause/Cause.java:170-182 | `find(t) != null` iff some entity of the chain has type `t` |
| RegionFlagsListener.FirstBlockIffPiston | huskyguard/src/main/java/com/codehusky/huskyguard/listener/RegionFlagsListener.java:65-70 | the piston test holds iff the first block of the chain is a piston block |
| RegionFlagsListener.SelectMember | huskyguard/src/main/java/com/codehusky/huskyguard/listener/RegionFlagsListener.java:66-78 | a filter is applied iff some applying condition carries it |
| RegionFlagsListener.SelectFrom | huskyguard/src/main/java/com/codehusky/huskyguard/listener/RegionFlagsListener.java:66-78 | every applied filter comes from an applying condition |
| RegionFlagsListener.SelectUnique | huskyguard/src/main/java/com/codehusky/huskyguard/listener/RegionFlagsListener.java:96-114 | when a filter is carried by one condition only, it is applied iff that condition holds |
| RegionFlagsListener.SelectInOrder | huskyguard/src/main/java/com/codehusky/huskyguard/listener/RegionFlagsListener.java:96-114 | filters are applied in source order |
| RegionFlagsListener.OnPlaceBlock | huskyguard/src/main/java/com/codehusky/huskyguard/listener/RegionFlagsListener.java:58-79 | nothing when regions are disabled; every filter has cancel = false and is one of PISTONS, SNOWMAN_TRAILS, ENDER_BUILD; filters come in source order |
| RegionFlagsListener.PlaceFilters | huskyguard/src/main/java/com/codehusky/huskyguard/listener/RegionFlagsListener.java:65-78 | on place, PISTONS iff the first block is a piston, SNOWMAN_TRAILS iff a snowman is in the cause, ENDER_BUILD iff an enderman is (with regions on) |
| RegionFlagsListener.OnBreakBlock | huskyguard/src/main/java/com/codehusky/huskyguard/listener/RegionFlagsListener.java:81-115 | nothing when regions are disabled. A filter cancels on false iff `explosionFlagCancellation` is set and its flag is one of the three explosion flags. SNOWMAN_TRAILS and FALL_DAMAGE never appear. Filters come in source order |
| RegionFlagsListener.BreakFilters | huskyguard/src/main/java/com/codehusky/huskyguard/listener/RegionFlagsListener.java:89-114 | on break, each of the six filters is applied iff its condition holds: PISTONS for a piston first block; CREEPER_EXPLOSION, ENDERDRAGON_BLOCK_DAMAGE, OTHER_EXPLOSION for creeper, dragon, crystal; ENDER_BUILD for enderman; RAVAGER_RAVAGE for ravager |
| RegionFlagsListener.CreeperAndEndermanBreak | huskyguard/src/main/java/com/codehusky/huskyguard/listener/RegionFlagsListener.java:96-110 | independent conditions stack: a creeper and an enderman give exactly the creeper filter then the enderman filter |
| RegionFlagsListener.OnEntityDamage | huskyguard/src/main/java/com/codehusky/huskyguard/listener/RegionFlagsListener.java:117-141 | cancelled iff regions are on, the victim is a player, the cause is FALL or FLY_INTO_WALL, and the FALL_DAMAGE query for that player at their location is false |
| RegionFlagsListener.WallLikeFall | huskyguard/src/main/java/com/codehusky/huskyguard/listener/RegionFlagsListener.java:125-138 | flying into a wall is decided exactly like a fall |
| RegionFlagsListener.DamageOnlyReadsFallDamage | huskyguard/src/main/java/com/codehusky/huskyguard/listener/RegionFlagsListener.java:125-138 | two region queries that agree on FALL_DAMAGE decide alike |
| VehicleListener.PlayerPassengers | huskyguard/src/main/java/com/codehusky/huskyguard/listener/HuskyGuardVehicleListener.java:66-67 | the player passengers are exactly the passengers that are players; their order is fixed by `PlayerPassengersConcat` |
| VehicleListener.PlayerPassengersConcat | huskyguard/src/main/java/com/codehusky/huskyguard/listener/HuskyGuardVehicleListener.java:66-67 | the players are taken in passenger order: the players of `a + b` are those of `a` followed by those of `b` |
| VehicleListener.PlayerPassengersSingle | huskyguard/src/main/java/com/codehusky/huskyguard/listener/HuskyGuardVehicleListener.java:66-67 | one passenger is kept exactly when it is a player |
| VehicleListener.FirstRejected | huskyguard/src/main/java/com/codehusky/huskyguard/listener/HuskyGuardVehicleListener.java:78-90 | the first player whose move is rejected, all earlier ones being accepted, or none if all are accepted |
| VehicleListener.OnVehicleMove | huskyguard/src/main/java/com/codehusky/huskyguard/listener/HuskyGuardVehicleListener.java:62-94 | the handler's loop reaches the decision stated through the first rejected player; a rollback only happens with regions on and a block change, and sends the vehicle to `from` |
| VehicleListener.AllAcceptedNoRollback | huskyguard/src/main/java/com/codehusky/huskyguard/listener/HuskyGuardVehicleListener.java:78-92 | if every player passenger is accepted nothing is moved |
| VehicleListener.NoPlayersNoRollback | huskyguard/src/main/java/com/codehusky/huskyguard/listener/HuskyGuardVehicleListener.java:65-70 | a vehicle without player passengers is never rolled back |
| VehicleListener.LaterPlayersNotConsulted | huskyguard/src/main/java/com/codehusky/huskyguard/listener/HuskyGuardVehicleListener.java:78-90 | players after the first rejected one are not consulted: tests agreeing up to it decide alike |
| VehicleListener.RejectedPlayerReturn | huskyguard/src/main/java/com/codehusky/huskyguard/listener/HuskyGuardVehicleListener.java:85-88 | the rejected player is sent to the last valid block iff it differs from `from` |
| SessionManager.ResetAllStates | huskyguard/src/main/java/com/codehusky/huskyguard/session/SpongeSessionManager.java:48-58 | no session is created or dropped; online players with a session are reset, all others unchanged |
| SessionManager.Run | huskyguard/src/main/java/com/codehusky/huskyguard/session/SpongeSessionManager.java:69-75 | every online player's session, created if missing, is ticked once; offline players' sessions unchanged |
| SessionManager.OnPlayerProcess | huskyguard/src/main/java/com/codehusky/huskyguard/session/SpongeSessionManager.java:60-64 | the processed player's session, created if missing, is initialised; no other session changes |
| SessionManager.HasBypass | huskyguard/src/main/java/com/codehusky/huskyguard/session/SpongeSessionManager.java:77-85 | bypass iff (a wrapped player with NPC metadata and `fakePlayerBuildOverride`) or the superclass says so; for other players exactly the superclass result |
| InventoryStack.Transfer | huskyguard/src/main/java/com/sk89q/worldedit/sponge/SpongeHuskyGuardPlatform.java:210-219 | moving items of one class from a later slot to an earlier one keeps every class total and never lowers a prefix's total |
| InventoryStack.FillSlot | huskyguard/src/main/java/com/sk89q/worldedit/sponge/SpongeHuskyGuardPlatform.java:190-221 | the inner loop keeps the stacking invariant; the emptied slots grow by exactly the number of full absorptions; later slots only lose items; and the filled slot ends at its cap or with no later positive stack it could take from |
| InventoryStack.StackInventory | huskyguard/src/main/java/com/sk89q/worldedit/sponge/SpongeHuskyGuardPlatform.java:166-230 | Each class total is conserved: per (type, durability, meta), or per (type, meta) when damaged stacks may merge. No prefix of the slots loses items, so items move only to earlier slots. A slot grows only up to its cap (64 or the item's max). Items never change kind. Empty and non-positive slots stay as they are. `affected` is the number of emptied slots. The slots are written back iff some slot was emptied. The result is saturated: no open slot (below its cap, and stackable) is followed by a positive stack it could merge with |
| SpawnProtection.GetSpawnProtection | huskyguard/src/main/java/com/sk89q/worldedit/sponge/SpongeHuskyGuardPlatform.java:256-272 | a region exists iff the world is the server's first world and the radius is positive. It is named `__spawn_protection__` and contains exactly the blocks within the radius of spawn on x and z, at any height from min to max Y |
| SpawnProtection.SpawnColumnProtected | huskyguard/src/main/java/com/sk89q/worldedit/sponge/SpongeHuskyGuardPlatform.java:264-268 | the whole column of the spawn block is protected |
| SpawnProtection.RadiusMonotone | huskyguard/src/main/java/com/sk89q/worldedit/sponge/SpongeHuskyGuardPlatform.java:262-268 | a larger radius protects every block a smaller one does |
| Blocks.Without | huskyguard/src/main/java/com/codehusky/huskyguard/util/Blocks.java:64-67 | the connected chests other than the block itself, in order |
| Blocks.WithoutConcat | huskyguard/src/main/java/com/codehusky/huskyguard/util/Blocks.java:64-67 | removal is piecewise over concatenation, so the kept chests stay in their original order |
| Blocks.Neighbours | huskyguard/src/main/java/com/codehusky/huskyguard/util/Blocks.java:57-59 | the block position plus each direction offset, in direction order |
| Blocks.GetConnected | huskyguard/src/main/java/com/codehusky/huskyguard/util/Blocks.java:51-73 | A block that is neither bed nor chest gives an empty list, and so does a chest without a tile entity. A chest gives its connected chests except itself. A bed gives one neighbour per connected direction, in order. It fails exactly when a bed lacks its tile entity or directions, or a tile entity has the wrong kind |
| Blocks.BedExcludesItself | huskyguard/src/main/java/com/codehusky/huskyguard/util/Blocks.java:55-61 | a bed's list excludes the bed itself when no direction is the zero offset |
| HuskyGuardPlugin.InGroup | huskyguard/src/main/java/com/codehusky/huskyguard/HuskyGuardPlugin.java:247-258 | true iff some parent's identifier equals the group (false with no parents) |
| HuskyGuardPlugin.GetGroupsAsWritten | huskyguard/src/main/java/com/codehusky/huskyguard/HuskyGuardPlugin.java:266-276 | as written always the empty array, because the cast fails and is caught |
| HuskyGuardPlugin.GetGroups | huskyguard/src/main/java/com/codehusky/huskyguard/HuskyGuardPlugin.java:266-271 | the intended result: one entry per parent, and a group is listed iff the player is in it |
| HuskyGuardPlugin.GetGroupsLosesGroups | huskyguard/src/main/java/com/codehusky/huskyguard/HuskyGuardPlugin.java:266-276 | a player in a group is missing it from the as-written list and has it in the intended one |
| HuskyGuardPlugin.CheckPermission | huskyguard/src/main/java/com/codehusky/huskyguard/HuskyGuardPlugin.java:286-304 | fails with a permissions error iff `hasPermission` is false |
| HuskyGuardPlugin.GetWorldEdit | huskyguard/src/main/java/com/codehusky/huskyguard/HuskyGuardPlugin.java:312-319 | fails with a command error iff WorldEdit is not installed |
| ActorWrapping.WrapCommandSender | huskyguard/src/main/java/com/codehusky/huskyguard/HuskyGuardPlugin.java:342-354 | a player becomes an unsilenced player wrapper; any other source a sender wrapper when WorldEdit is present, otherwise nothing |
| ActorWrapping.UnwrapActorAsWritten | huskyguard/src/main/java/com/codehusky/huskyguard/HuskyGuardPlugin.java:356-364 | succeeds exactly for a player wrapper (giving its player) and a console actor (giving the console); anything else is an illegal argument |
| ActorWrapping.UnwrapActor | huskyguard/src/main/java/com/codehusky/huskyguard/HuskyGuardPlugin.java:356-364 | the intended unwrapping: sender wrappers give back their source; only foreign actors fail |
| ActorWrapping.WrapUnwrapRoundTrip | huskyguard/src/main/java/com/codehusky/huskyguard/HuskyGuardPlugin.java:342-364 | with the intended unwrapping, unwrapping what was wrapped gives the original source |
| ActorWrapping.ConsoleRoundTripFails | huskyguard/src/main/java/com/codehusky/huskyguard/HuskyGuardPlugin.java:347-363 | as written, the console wrapped for WorldEdit cannot be unwrapped |
| ActorWrapping.UnwrapAgreesOffSenders | huskyguard/src/main/java/com/codehusky/huskyguard/HuskyGuardPlugin.java:356-364 | both unwrappings agree on every actor other than a sender wrapper |
| SpongePlayer.Wrap | huskyguard/src/main/java/com/codehusky/huskyguard/SpongePlayer.java:60-68 | a new wrapper holds the player and the silenced flag and no name yet |
| SpongePlayer.GetName | huskyguard/src/main/java/com/codehusky/huskyguard/SpongePlayer.java:71-78 | the cached name if there is one, unchanged wrapper; otherwise the server's name, which is then cached |
| SpongePlayer.NameReadOnce | huskyguard/src/main/java/com/codehusky/huskyguard/SpongePlayer.java:71-78 | a second read returns the first answer even if the server's name changed |
| SpongePlayer.Kick | huskyguard/src/main/java/com/codehusky/huskyguard/SpongePlayer.java:90-95 | kicks the player iff not silenced |
| SpongePlayer.Ban | huskyguard/src/main/java/com/codehusky/huskyguard/SpongePlayer.java:97-103 | unless silenced, bans the memoised name then kicks; silenced, nothing happens and the name is not read |
| SpongePlayer.PrintRawMessage | huskyguard/src/main/java/com/codehusky/huskyguard/SpongePlayer.java:238-243 | prints iff not silenced |
| SpongePlayer.SilencedDoesNothing | huskyguard/src/main/java/com/codehusky/huskyguard/SpongePlayer.java:90-243 | a silenced wrapper performs no kick, ban or raw print |
| SpongePlayer.GetPlayerWeather | huskyguard/src/main/java/com/codehusky/huskyguard/SpongePlayer.java:150-154 | none stays none, clear reads clear, anything else reads rain (never thunder) |
| SpongePlayer.SetPlayerWeather | huskyguard/src/main/java/com/codehusky/huskyguard/SpongePlayer.java:156-159 | clear sets clear; anything else, null included, sets downfall |
| SpongePlayer.SetThenGet | huskyguard/src/main/java/com/codehusky/huskyguard/SpongePlayer.java:150-159 | set then get yields clear for clear and rain otherwise |
| SpongePlayer.GetThenSet | huskyguard/src/main/java/com/codehusky/huskyguard/SpongePlayer.java:150-159 | get then set restores the server's weather |
| SpongePlayer.TitleTimesFor | huskyguard/src/main/java/com/codehusky/huskyguard/SpongePlayer.java:200-208 | (10, 70, 20) iff the world forces default title times, otherwise (-1, -1, -1); `TitleTimingsShown` says what the client then shows |
| SpongePlayer.TitleTimingsShown | huskyguard/src/main/java/com/codehusky/huskyguard/SpongePlayer.java:200-208 | a forcing world always shows fade-in 10, stay 70 and fade-out 20, whatever the client had; any other world leaves the client's timings unchanged |
| SpongePlayer.Groups | huskyguard/src/main/java/com/codehusky/huskyguard/SpongePlayer.java:229-231 | delegates to the plugin's `getGroups` as written, so the list is always empty (together with HuskyGuardPlugin.java:266-276) |
| SpongePlayer.HasGroup | huskyguard/src/main/java/com/codehusky/huskyguard/SpongePlayer.java:85-88 | through the plugin's `inGroup`, true iff some parent subject has that group's identifier |
| SpongePlayer.GroupQueriesDisagree | huskyguard/src/main/java/com/codehusky/huskyguard/SpongePlayer.java:85-88 | for a player with a parent group, `hasGroup` says yes while `getGroups` does not list the group (together with SpongePlayer.java:229-231) |
| SpongePlayer.HasPermission | huskyguard/src/main/java/com/codehusky/huskyguard/SpongePlayer.java:295-298 | true iff the plugin's permission check on the wrapped player passes |
| SpongePlayer.WrapperCapabilities | huskyguard/src/main/java/com/codehusky/huskyguard/SpongePlayer.java:265-273 | no wrapper claims to be a player actor or to destroy bedrock |

## Left out

- I/O, logging and stack traces, the scheduler, and the asynchronous profile-cache submission in `onPlayerProcess`. Listener registration and plugin lifecycle are also left out.
- The WorldGuard internals are parameters or are not modelled. These are the region query, the delayed overlap association (kept as the location it is bound to), the session object (`testMoveTo`, `tick`, `resetState`, `initialize`), the superclass bypass decision and the permission service.
- `event.filter` is not part of this model. A handler's effect is modelled as the list of (flag, cancel-on-false) filters it applies, in order.
- Floating-point state: velocities, directions (a facing is kept as an abstract pair), health, food, saturation and exhaustion.
- Materials: the flag table holds a representative selection of the source's several hundred entries. Tag-driven entries stand for their whole tag. The other material predicates the core does not use are omitted.
- The entity type hierarchy is reduced to the traits the predicates read.
- Causes.CreateRootFirst: promises the root-first order only when no object reaches itself through branch links and no parents are tracked. On a cycle of links the order fails (`MutualTargetsNotRootFirst`); with tracked parents only link following (`AddAllFollows`) is stated, not the order.
- SpongePlayer.TitleTimingsShown: what the client shows for timings of -1 is the server's convention, written as `ShownTimes`; the server itself is not part of this model.
- Causes.Ancestors: the source's parent loop never ends on a cycle of tracked parents. The model stops at the first object it has already visited.
- Entities.GetShooter: the source loops forever on a shooter cycle of two or more entities. The model stops when the next shooter is already on the walk.
- SessionManager.ResetAllStates: assumes the server lists each online player once.
- SessionManager.Run: assumes the server lists each online player once.
- SpawnProtection.GetSpawnProtection: assumes the server lists at least one world. The region id's validation and the cuboid's own normalisation belong to WorldGuard's region class. The model reads the cuboid between its corners, whichever corner is smaller.
- InventoryStack.StackInventory: the inner loop's unstackable guard tests the earlier stack (`item`), not the later one. This is modelled as written; since the earlier stack already passed that test, the guard never fires. Whether changes made without any full absorption reach the live inventory depends on the server's copy semantics for `getContents`, which are not modelled.
- HuskyGuardPlugin.CheckPermission: the permission service is a parameter, so `hasPermission` is the service itself.
- The Causes queries and `Cause.create` use the documented `getIfPresent`. As written it yields the whole metadata map; see Findings.

## Findings

| source | as written | input that shows it | evidently intended | confidence | as-written member | corrected member |
|---|---|---|---|---|---|---|
| huskyguard/src/main/java/com/codehusky/huskyguard/internal/HGMetadata.java:85 | returns the target's inner map `v` instead of the stored value `r` | a target holding `worldguard.cause -> 7` and `other -> 8`: the reading is the two-entry map, not 7 (`HGMetadata.AsWrittenReturnsInnerMap`) | the stored value, as the doc comment at lines 57-65 says | high; not executed | HGMetadata.GetIfPresentAsWritten | HGMetadata.GetIfPresent |
| huskyguard/src/main/java/com/codehusky/huskyguard/HuskyGuardPlugin.java:272 | `(String[]) list.toArray()` always throws, since the array's run-time type is `Object[]`; the catch returns an empty array | any player with a parent group gets no groups (`HuskyGuardPlugin.GetGroupsLosesGroups`) | the parents' identifiers | high; not executed | HuskyGuardPlugin.GetGroupsAsWritten | HuskyGuardPlugin.GetGroups |
| huskyguard/src/main/java/com/codehusky/huskyguard/HuskyGuardPlugin.java:359 | tests whether the actor is itself a console source, which the sender wrapper made by `wrapCommandSender` is not | the console wrapped with WorldEdit present is refused (`ActorWrapping.ConsoleRoundTripFails`) | a wrapped sender gives back the source it wraps, so unwrap undoes wrap | medium; not executed | ActorWrapping.UnwrapActorAsWritten | ActorWrapping.UnwrapActor |
