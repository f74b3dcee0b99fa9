/** The plugin's wrapper around a server player: a memoised name, actions
    that a silenced wrapper swallows, the weather mapping between the two
    APIs, title timings, and delegation to the plugin for groups and
    permissions. */
module SpongePlayer {
  import opened Base
  import opened Actors
  import Plugin = HuskyGuardPlugin

  /** The wrapper's state: the wrapped player, whether it is silenced, and the
      name once it has been read. */
  datatype Wrapper = Wrapper(player: Id, silenced: bool, name: Option<string>)

  /** A new wrapper; `wrapPlayer` without the flag is not silenced. */
  function Wrap(player: Id, silenced: bool): (w: Wrapper)
    ensures w.player == player && w.silenced == silenced && w.name.None?
  {
    Wrapper(player, silenced, None)
  }

  /** `getName`: the underlying player's name (`serverName`) is read only
      while no name is cached; the wrapper returned caches the answer. */
  function GetName(w: Wrapper, serverName: string): (r: (string, Wrapper))
    ensures r.1.name == Some(r.0)
    ensures r.1.player == w.player && r.1.silenced == w.silenced
    ensures w.name.Some? ==> r.0 == w.name.value && r.1 == w
    ensures w.name.None? ==> r.0 == serverName
  {
    match w.name
    case Some(n) => (n, w)
    case None => (serverName, w.(name := Some(serverName)))
  }

  /** The name is read at most once: a later call returns the first answer
      even if the server would now give another. */
  lemma NameReadOnce(w: Wrapper, first: string, later: string)
    ensures GetName(GetName(w, first).1, later).0 == GetName(w, first).0
    ensures GetName(GetName(w, first).1, later).1 == GetName(w, first).1
  {
  }

  /** The actions a wrapper performs on the server. */
  datatype Action = KickPlayer(player: Id, msg: string) | AddNameBan(name: string) | PrintRaw(player: Id, msg: string)

  /** `kick`: kicks unless silenced. */
  function Kick(w: Wrapper, msg: string): (r: seq<Action>)
    ensures w.silenced <==> r == []
    ensures !w.silenced ==> r == [KickPlayer(w.player, msg)]
  {
    if !w.silenced then [KickPlayer(w.player, msg)] else []
  }

  /** `ban`: unless silenced, bans the player's (memoised) name and kicks
      them; a silenced wrapper neither acts nor reads the name. */
  function Ban(w: Wrapper, serverName: string, msg: string): (r: (seq<Action>, Wrapper))
    ensures w.silenced ==> r == ([], w)
    ensures !w.silenced ==> r.0 == [AddNameBan(GetName(w, serverName).0), KickPlayer(w.player, msg)]
    ensures !w.silenced ==> r.1.name.Some?
  {
    if !w.silenced then
      var (n, w1) := GetName(w, serverName);
      ([AddNameBan(n), KickPlayer(w.player, msg)], w1)
    else ([], w)
  }

  /** `printRaw`: prints unless silenced. */
  function PrintRawMessage(w: Wrapper, msg: string): (r: seq<Action>)
    ensures w.silenced <==> r == []
    ensures !w.silenced ==> r == [PrintRaw(w.player, msg)]
  {
    if !w.silenced then [PrintRaw(w.player, msg)] else []
  }

  /** A silenced wrapper performs no action at all. */
  lemma SilencedDoesNothing(w: Wrapper, name: string, msg: string)
    requires w.silenced
    ensures Kick(w, msg) == [] && Ban(w, name, msg).0 == [] && PrintRawMessage(w, msg) == []
  {
  }

  // ---------------------------------------------------------------------
  // Weather

  /** The server's per-player weather. */
  datatype ServerWeather = ServerClear | ServerDownfall

  /** WorldEdit's weather types. */
  datatype WeatherType = Clear | Rain | ThunderStorm

  /** `getPlayerWeather`: no weather stays none, clear stays clear and any
      other weather reads as rain. */
  function GetPlayerWeather(w: Option<ServerWeather>): (r: Option<WeatherType>)
    ensures r.None? <==> w.None?
    ensures r.Some? ==> (r.value == Clear <==> w.value == ServerClear)
    ensures r.Some? ==> r.value != ThunderStorm
  {
    match w
    case None => None
    case Some(ServerClear) => Some(Clear)
    case Some(_) => Some(Rain)
  }

  /** `setPlayerWeather`: clear sets clear; anything else, including no
      weather, sets downfall. */
  function SetPlayerWeather(t: Option<WeatherType>): (r: ServerWeather)
    ensures r == ServerClear <==> t == Some(Clear)
  {
    if t == Some(Clear) then ServerClear else ServerDownfall
  }

  /** Setting then reading gives clear for clear and rain for anything else. */
  lemma SetThenGet(t: Option<WeatherType>)
    ensures GetPlayerWeather(Some(SetPlayerWeather(t))) == Some(if t == Some(Clear) then Clear else Rain)
  {
  }

  /** Reading then setting gives back the server's weather. */
  lemma GetThenSet(w: ServerWeather)
    ensures SetPlayerWeather(GetPlayerWeather(Some(w))) == w
  {
  }

  // ---------------------------------------------------------------------
  // Titles

  /** Title fade-in, stay and fade-out ticks. */
  datatype TitleTimes = TitleTimes(fadeIn: int, stay: int, fadeOut: int)

  /** `sendTitle`: the server defaults (10, 70, 20) when the world forces the
      default title times, otherwise -1 for all three, which keeps the
      client's current timings. */
  function TitleTimesFor(forceDefaultTitleTimes: bool): (r: TitleTimes)
    ensures forceDefaultTitleTimes <==> r.fadeIn >= 0
    ensures forceDefaultTitleTimes ==> r == TitleTimes(10, 70, 20)
    ensures !forceDefaultTitleTimes ==> r.fadeIn == r.stay == r.fadeOut == -1
  {
    if forceDefaultTitleTimes then TitleTimes(10, 70, 20) else TitleTimes(-1, -1, -1)
  }

  /** The timings a client shows after receiving `sent`, on the server's
      convention that -1 for all three sends no timings, so the client keeps
      `current`. The server is not part of this model; this is its contract. */
  function ShownTimes(current: TitleTimes, sent: TitleTimes): TitleTimes
  {
    if sent == TitleTimes(-1, -1, -1) then current else sent
  }

  /** A forcing world always shows the default fade-in, stay and fade-out,
      whatever the client had; any other world leaves the client's timings
      as they were. */
  lemma TitleTimingsShown(forceDefaultTitleTimes: bool, current: TitleTimes)
    ensures forceDefaultTitleTimes ==>
      ShownTimes(current, TitleTimesFor(forceDefaultTitleTimes)) == TitleTimes(10, 70, 20)
    ensures !forceDefaultTitleTimes ==>
      ShownTimes(current, TitleTimesFor(forceDefaultTitleTimes)) == current
  {
  }

  // ---------------------------------------------------------------------
  // Delegation to the plugin

  /** `getGroups`: delegates to the plugin's `getGroups` as written, whose
      failing cast makes it the empty array for every player. */
  function Groups(w: Wrapper, parents: seq<Plugin.SubjectRef>): (r: seq<string>)
    ensures r == []
  {
    Plugin.GetGroupsAsWritten(parents)
  }

  /** `hasGroup`: delegates to the plugin's `inGroup`, which scans the
      parents itself and so does not go through `getGroups`. */
  method HasGroup(w: Wrapper, parents: seq<Plugin.SubjectRef>, group: string) returns (r: bool)
    ensures r <==> Plugin.IsParentGroup(parents, group)
  {
    r := Plugin.InGroup(parents, group);
  }

  /** The wrapper's two group queries disagree for any player with a parent:
      `hasGroup` finds the first parent's group, `getGroups` does not list
      it. */
  method GroupQueriesDisagree(w: Wrapper, parents: seq<Plugin.SubjectRef>) returns (has: bool, listed: bool)
    requires |parents| > 0
    ensures has && !listed
  {
    var g := parents[0].identifier;
    has := HasGroup(w, parents, g);
    listed := g in Groups(w, parents);
  }

  /** `hasPermission`: the plugin's check on the wrapped player. */
  function HasPermission(w: Wrapper, service: Plugin.PermissionService, perm: string): (r: bool)
    ensures r <==> Plugin.CheckPermission(service, Plugin.PlayerSource(w.player), perm).Ok?
  {
    Plugin.HasPermission(service, Plugin.PlayerSource(w.player), perm)
  }

  /** `isPlayer`: the wrapper does not report itself as a player actor. */
  predicate IsPlayerActor(w: Wrapper) { false }

  /** `canDestroyBedrock`: never. */
  predicate CanDestroyBedrock(w: Wrapper) { false }

  /** Neither the player-actor flag nor bedrock breaking depends on the
      wrapper. */
  lemma WrapperCapabilities(w1: Wrapper, w2: Wrapper)
    ensures IsPlayerActor(w1) == IsPlayerActor(w2) && !IsPlayerActor(w1)
    ensures CanDestroyBedrock(w1) == CanDestroyBedrock(w2) && !CanDestroyBedrock(w1)
  {
  }
}
