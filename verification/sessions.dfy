/** The session manager: one session per player, swept by `resetAllStates`
    and ticked by `run`, and the NPC bypass rule. Sessions are values of an
    arbitrary type; creating, resetting, ticking and initialising one are
    parameters, as is the superclass's bypass decision. */
module SessionManager {
  import opened Base
  import opened Actors

  type Sessions<S> = map<Id, S>

  /** The session `get` hands back: the stored one, or a new one for a
      player who has none. */
  function SessionFor<S>(sessions: Sessions<S>, create: Id -> S, p: Id): S
  {
    if p in sessions then sessions[p] else create(p)
  }

  /** `resetAllStates`: every online player who already has a session has it
      reset; no session is created, and offline players' sessions stay.
      The server lists each online player once. */
  method ResetAllStates<S>(online: seq<Id>, sessions: Sessions<S>, reset: S -> S) returns (r: Sessions<S>)
    requires NoDuplicates(online)
    ensures r.Keys == sessions.Keys
    ensures forall p :: p in sessions && p in online ==> r[p] == reset(sessions[p])
    ensures forall p :: p in sessions && p !in online ==> r[p] == sessions[p]
  {
    r := sessions;
    var i := 0;
    while i < |online|
      invariant 0 <= i <= |online|
      invariant r.Keys == sessions.Keys
      invariant forall p :: p in sessions && p in online[..i] ==> r[p] == reset(sessions[p])
      invariant forall p :: p in sessions && p !in online[..i] ==> r[p] == sessions[p]
      decreases |online| - i
    {
      var p := online[i];
      assert p !in online[..i];
      if p in r {
        r := r[p := reset(r[p])];
      }
      assert online[..i + 1] == online[..i] + [p];
      i := i + 1;
    }
    assert online[..i] == online;
  }

  /** `run`: every online player's session, created if missing, is ticked
      once; other sessions stay. */
  method Run<S>(online: seq<Id>, sessions: Sessions<S>, create: Id -> S, tick: S -> S) returns (r: Sessions<S>)
    requires NoDuplicates(online)
    ensures r.Keys == sessions.Keys + (set p | p in online)
    ensures forall p :: p in online ==> r[p] == tick(SessionFor(sessions, create, p))
    ensures forall p :: p in sessions && p !in online ==> r[p] == sessions[p]
  {
    r := sessions;
    var i := 0;
    while i < |online|
      invariant 0 <= i <= |online|
      invariant r.Keys == sessions.Keys + (set p | p in online[..i])
      invariant forall p :: p in online[..i] ==> r[p] == tick(SessionFor(sessions, create, p))
      invariant forall p :: p in sessions && p !in online[..i] ==> r[p] == sessions[p]
      decreases |online| - i
    {
      var p := online[i];
      assert p !in online[..i];
      assert SessionFor(r, create, p) == SessionFor(sessions, create, p);
      r := r[p := tick(SessionFor(r, create, p))];
      assert online[..i + 1] == online[..i] + [p];
      i := i + 1;
    }
    assert online[..i] == online;
  }

  /** `onPlayerProcess`: the processed player's session, created if
      missing, is initialised; nothing else changes. */
  function OnPlayerProcess<S>(sessions: Sessions<S>, create: Id -> S, initialize: S -> S, p: Id): (r: Sessions<S>)
    ensures r.Keys == sessions.Keys + {p}
    ensures r[p] == initialize(SessionFor(sessions, create, p))
    ensures forall q :: q in sessions && q != p ==> r[q] == sessions[q]
  {
    sessions[p := initialize(SessionFor(sessions, create, p))]
  }

  /** The local players the platform deals with: its own player wrapper,
      or any other implementation. */
  datatype LocalPlayer = SpongePlayerOf(player: Id) | OtherLocalPlayer(uid: Id)

  /** The player behind a wrapper carries the server's "NPC" metadata. */
  predicate HasNpcMetadata(w: World, lp: LocalPlayer)
  {
    lp.SpongePlayerOf? && lp.player in w && w[lp.player].EntityBody? && w[lp.player].entity.npcMetadata
  }

  /** `hasBypass`: an NPC-marked wrapped player bypasses when the world's
      `fakePlayerBuildOverride` is set; otherwise the superclass decides. */
  function HasBypass(w: World, lp: LocalPlayer, fakePlayerBuildOverride: bool, superBypass: bool): (r: bool)
    ensures r <==> (HasNpcMetadata(w, lp) && fakePlayerBuildOverride) || superBypass
    ensures lp.OtherLocalPlayer? ==> r == superBypass
    ensures superBypass ==> r
  {
    match lp
    case SpongePlayerOf(id) =>
      if id in w && w[id].EntityBody? && w[id].entity.npcMetadata && fakePlayerBuildOverride then true
      else superBypass
    case OtherLocalPlayer(_) => superBypass
  }
}
