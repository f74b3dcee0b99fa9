/** Converting between the server's command sources and WorldEdit actors:
    `wrapCommandSender` and `unwrapActor`. */
module ActorWrapping {
  import opened Base
  import opened HuskyGuardPlugin
  import SP = SpongePlayer

  /** The WorldEdit actors the plugin deals with: its player wrapper, the
      command-sender wrapper around any other source, and actors from
      elsewhere — `ConsoleActor` for one that is itself the server console. */
  datatype WrappedActor =
    | PlayerActor(wrapper: SP.Wrapper)
    | SenderActor(source: CommandSource)
    | ConsoleActor
    | ForeignActor(code: nat)

  /** `wrapCommandSender`: a player becomes an unsilenced player wrapper; any
      other source is wrapped with WorldEdit, or not at all (`None`) when
      WorldEdit is missing. */
  function WrapCommandSender(sender: CommandSource, worldEditInstalled: bool): (r: Option<WrappedActor>)
    ensures sender.PlayerSource? ==> r == Some(PlayerActor(SP.Wrap(sender.player, false)))
    ensures !sender.PlayerSource? ==> (r.Some? <==> GetWorldEdit(worldEditInstalled).Ok?)
    ensures !sender.PlayerSource? && r.Some? ==> r.value == SenderActor(sender)
  {
    if sender.PlayerSource? then Some(PlayerActor(SP.Wrap(sender.player, false)))
    else match GetWorldEdit(worldEditInstalled)
      case Ok(_) => Some(SenderActor(sender))
      case Err(_) => None
  }

  /** `unwrapActor` as written: the player wrapper gives its player and an
      actor that is the console gives the console; the command-sender
      wrapper is neither, so it is refused like any other actor. */
  function UnwrapActorAsWritten(a: WrappedActor): (r: Result<CommandSource, Failure>)
    ensures r.Ok? <==> a.PlayerActor? || a.ConsoleActor?
    ensures a.PlayerActor? ==> r == Ok(PlayerSource(a.wrapper.player))
    ensures a.ConsoleActor? ==> r == Ok(ConsoleSource)
    ensures r.Err? ==> r.error == IllegalArgument
  {
    match a
    case PlayerActor(w) => Ok(PlayerSource(w.player))
    case ConsoleActor => Ok(ConsoleSource)
    case _ => Err(IllegalArgument)
  }

  /** `unwrapActor` as evidently intended: the command-sender wrapper also
      gives back the source it wraps. */
  function UnwrapActor(a: WrappedActor): (r: Result<CommandSource, Failure>)
    ensures r.Err? <==> a.ForeignActor?
    ensures a.PlayerActor? ==> r == Ok(PlayerSource(a.wrapper.player))
    ensures a.SenderActor? ==> r == Ok(a.source)
    ensures a.ConsoleActor? ==> r == Ok(ConsoleSource)
    ensures r.Err? ==> r.error == IllegalArgument
  {
    match a
    case PlayerActor(w) => Ok(PlayerSource(w.player))
    case SenderActor(s) => Ok(s)
    case ConsoleActor => Ok(ConsoleSource)
    case ForeignActor(_) => Err(IllegalArgument)
  }

  /** With the intended unwrapping, unwrapping what was wrapped gives back
      the original source. */
  lemma WrapUnwrapRoundTrip(sender: CommandSource, worldEditInstalled: bool)
    requires WrapCommandSender(sender, worldEditInstalled).Some?
    ensures UnwrapActor(WrapCommandSender(sender, worldEditInstalled).value) == Ok(sender)
  {
  }

  /** As written, the console wrapped for WorldEdit cannot be unwrapped. */
  lemma ConsoleRoundTripFails()
    ensures WrapCommandSender(ConsoleSource, true) == Some(SenderActor(ConsoleSource))
    ensures UnwrapActorAsWritten(WrapCommandSender(ConsoleSource, true).value) == Err(IllegalArgument)
    ensures UnwrapActor(WrapCommandSender(ConsoleSource, true).value) == Ok(ConsoleSource)
  {
  }

  /** Both unwrappings agree on everything except the command-sender
      wrapper. */
  lemma UnwrapAgreesOffSenders(a: WrappedActor)
    requires !a.SenderActor?
    ensures UnwrapActorAsWritten(a) == UnwrapActor(a)
  {
  }
}
