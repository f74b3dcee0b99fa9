/** Choosing the region associable for a resolved cause: whose membership
    decides what the cause may do in a region. */
module AbstractListener {
  import opened Base
  import opened GameTypes
  import opened Actors
  import opened Causes
  import Entities

  /** The associables a listener hands to region queries. */
  datatype Associable =
    | NonMember                     // the constant non-member association
    | WrappedPlayer(player: Id)     // an online player, wrapped by the plugin
    | WrappedOfflinePlayer(user: Id)
    | DelayedOverlap(at: Location)  // membership of the regions overlapping `at`

  /** Where an entity root cause is taken to act from: its spawn origin when
      running on Paper with `usePaperEntityOrigin` set and an origin is
      recorded, otherwise its current location. */
  function EntityActsFrom(e: Entity, isPaper: bool, usePaperEntityOrigin: bool): (r: Location)
    ensures r == e.location || Some(r) == e.origin
    ensures !(isPaper && usePaperEntityOrigin) ==> r == e.location
    ensures isPaper && usePaperEntityOrigin && e.origin.Some? ==> r == e.origin.value
  {
    if isPaper && usePaperEntityOrigin then
      match e.origin
      case Some(o) => o
      case None => e.location
    else
      e.location
  }

  /** `createRegionAssociable`: unknown causes are non-members; otherwise the
      root cause decides, checked as player, then user, then entity, then
      block, and anything else is a non-member. */
  function CreateRegionAssociable(c: Cause, isPaper: bool, usePaperEntityOrigin: bool): (r: Associable)
    ensures !IsKnown(c) ==> r == NonMember
    ensures r.WrappedPlayer? <==> IsKnown(c) && IsPlayer(c.causes[0].body)
    ensures r.WrappedPlayer? ==> r.player == c.causes[0].id
    ensures r.WrappedOfflinePlayer? <==> IsKnown(c) && c.causes[0].body.OfflineUser?
    ensures r.WrappedOfflinePlayer? ==> r.user == c.causes[0].id
    ensures r.DelayedOverlap? <==>
              IsKnown(c) && (IsNonPlayerEntity(c.causes[0].body) || c.causes[0].body.BlockAt?)
    ensures r.DelayedOverlap? && c.causes[0].body.BlockAt? ==> r.at == c.causes[0].body.at
    ensures r.DelayedOverlap? && c.causes[0].body.EntityBody? ==>
              r.at == EntityActsFrom(c.causes[0].body.entity, isPaper, usePaperEntityOrigin)
    ensures r == NonMember <==> !IsKnown(c) || c.causes[0].body.PlainObject?
  {
    if !IsKnown(c) then NonMember
    else
      var root := c.causes[0];
      match root.body
      case EntityBody(e) =>
        if PlayerT in e.traits then WrappedPlayer(root.id)
        else DelayedOverlap(EntityActsFrom(e, isPaper, usePaperEntityOrigin))
      case OfflineUser(_) => WrappedOfflinePlayer(root.id)
      case BlockAt(at, _) => DelayedOverlap(at)
      case PlainObject => NonMember
  }

  /** A cause built from no objects at all associates as a non-member. */
  lemma NullCauseIsNonMember(w: World, meta: ParentTable, isPaper: bool, usePaperEntityOrigin: bool)
    ensures CreateRegionAssociable(Create(w, meta, None), isPaper, usePaperEntityOrigin) == NonMember
  {
  }

  /** A cause whose every element is primed TNT or a vehicle associates as a
      non-member, whatever its root. */
  lemma InertCauseIsNonMember(c: Cause, isPaper: bool, usePaperEntityOrigin: bool)
    requires forall i :: 0 <= i < |c.causes| ==> Inert(c.causes[i].body)
    ensures CreateRegionAssociable(c, isPaper, usePaperEntityOrigin) == NonMember
  {
  }

  /** An online player root is wrapped as a player and never as an offline
      user, however the rest of the chain looks. */
  lemma PlayerRootNeverOffline(c: Cause, isPaper: bool, usePaperEntityOrigin: bool)
    requires IsKnown(c) && IsPlayer(c.causes[0].body)
    ensures CreateRegionAssociable(c, isPaper, usePaperEntityOrigin) == WrappedPlayer(c.causes[0].id)
    ensures !CreateRegionAssociable(c, isPaper, usePaperEntityOrigin).WrappedOfflinePlayer?
  {
  }

  /** An arrow a player shot acts as that player. */
  lemma ArrowActsAsShooter(w: World, player: Id, arrow: Id, isPaper: bool, usePaperEntityOrigin: bool)
    requires player in w && arrow in w && player != arrow
    requires w[player] == EntityBody(BasicEntity(PlayerType, {PlayerT, LivingT, HumanT}))
    requires w[arrow] == EntityBody(BasicEntity(Arrow, {ProjectileT, ArrowT}).(shooter := Some(player)))
    ensures CreateRegionAssociable(Create(w, map[], Some([Some(arrow)])), isPaper, usePaperEntityOrigin)
         == WrappedPlayer(player)
  {
    ArrowShotByPlayer(w, player, arrow);
    var c := Create(w, map[], Some([Some(arrow)]));
    assert !Inert(c.causes[0].body);
  }

  /** A spawned entity with a recorded origin acts from that origin exactly
      when Paper's origin option is on. */
  lemma OriginUsedOnlyOnPaper(c: Cause, isPaper: bool, usePaperEntityOrigin: bool)
    requires |c.causes| > 0 && c.causes[0].body.EntityBody? && !IsPlayer(c.causes[0].body)
    requires !Inert(c.causes[0].body)
    requires c.causes[0].body.entity.origin.Some?
    requires c.causes[0].body.entity.origin.value != c.causes[0].body.entity.location
    ensures (CreateRegionAssociable(c, isPaper, usePaperEntityOrigin)
             == DelayedOverlap(c.causes[0].body.entity.origin.value))
            <==> isPaper && usePaperEntityOrigin
  {
  }

  /** A human at the root of a known cause is wrapped as a player exactly
      when it is not an NPC; an NPC root is judged by where it acts from. */
  lemma HumanRootWrappedUnlessNpc(c: Cause, isPaper: bool, usePaperEntityOrigin: bool)
    requires IsKnown(c) && c.causes[0].body.EntityBody? && HumanT in c.causes[0].body.entity.traits
    ensures CreateRegionAssociable(c, isPaper, usePaperEntityOrigin).WrappedPlayer?
            <==> !Entities.IsNpc(c.causes[0].body.entity)
    ensures Entities.IsNpc(c.causes[0].body.entity) ==>
              CreateRegionAssociable(c, isPaper, usePaperEntityOrigin)
              == DelayedOverlap(EntityActsFrom(c.causes[0].body.entity, isPaper, usePaperEntityOrigin))
  {
  }

  /** A living root of a known cause is wrapped as a player exactly when it
      is not a non-player creature; a non-player creature root is judged by
      where it acts from. */
  lemma LivingRootWrappedUnlessNonPlayer(c: Cause, isPaper: bool, usePaperEntityOrigin: bool)
    requires IsKnown(c) && c.causes[0].body.EntityBody? && LivingT in c.causes[0].body.entity.traits
    ensures CreateRegionAssociable(c, isPaper, usePaperEntityOrigin).WrappedPlayer?
            <==> !Entities.IsNonPlayerCreature(c.causes[0].body.entity)
    ensures Entities.IsNonPlayerCreature(c.causes[0].body.entity) ==>
              CreateRegionAssociable(c, isPaper, usePaperEntityOrigin)
              == DelayedOverlap(EntityActsFrom(c.causes[0].body.entity, isPaper, usePaperEntityOrigin))
  {
  }
}
