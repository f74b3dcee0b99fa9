/** The plugin's group and permission helpers and its WorldEdit lookup.
    Permission subjects are modelled by their parent references; whether a
    source holds a permission is the server's permission service, a
    parameter. */
module HuskyGuardPlugin {
  import opened Base
  import opened Actors

  /** A permission subject's parent reference: the collection it lives in and
      its identifier (for a group, the group name). */
  datatype SubjectRef = SubjectRef(collection: string, identifier: string)

  /** The sources a command can come from. */
  datatype CommandSource = PlayerSource(player: Id) | ConsoleSource | OtherSource(code: nat)

  /** The server's permission service: does `source` hold `perm`? */
  type PermissionService = (CommandSource, string) -> bool

  /** The exceptions these helpers raise. */
  datatype Failure =
    | CommandPermissions      // the sender lacks the permission
    | CommandFailure          // WorldEdit is not installed
    | ClassCast               // an array of objects cast to an array of strings
    | IllegalArgument         // an actor type the plugin cannot unwrap

  // ---------------------------------------------------------------------
  // Groups

  /** `inGroup`: the parents are scanned in order for one whose identifier is
      `group`. */
  method InGroup(parents: seq<SubjectRef>, group: string) returns (r: bool)
    ensures r <==> IsParentGroup(parents, group)
  {
    var i := 0;
    while i < |parents|
      invariant 0 <= i <= |parents|
      invariant forall k :: 0 <= k < i ==> parents[k].identifier != group
      decreases |parents| - i
    {
      if parents[i].identifier == group {
        return true;
      }
      i := i + 1;
    }
    return false;
  }

  /** Some parent's identifier is `group`. */
  predicate IsParentGroup(parents: seq<SubjectRef>, group: string)
  {
    exists k :: 0 <= k < |parents| && parents[k].identifier == group
  }

  /** The parents' identifiers, in order. */
  function Identifiers(parents: seq<SubjectRef>): (r: seq<string>)
    ensures |r| == |parents|
    ensures forall k :: 0 <= k < |parents| ==> r[k] == parents[k].identifier
  {
    if |parents| == 0 then [] else [parents[0].identifier] + Identifiers(parents[1..])
  }

  /** `List.toArray` followed by a cast to `String[]`: the array it returns
      has run-time type `Object[]`, so the cast always fails, whatever the
      list holds. */
  function CastToStringArray(list: seq<string>): Result<seq<string>, Failure>
  {
    Err(ClassCast)
  }

  /** `getGroups` as written: the failed cast is caught and the empty array
      returned. */
  function GetGroupsAsWritten(parents: seq<SubjectRef>): (r: seq<string>)
    ensures r == []
  {
    match CastToStringArray(Identifiers(parents))
    case Ok(a) => a
    case Err(_) => []
  }

  /** `getGroups` as evidently intended: the parents' identifiers. */
  function GetGroups(parents: seq<SubjectRef>): (r: seq<string>)
    ensures forall g :: g in r <==> IsParentGroup(parents, g)
    ensures |r| == |parents|
  {
    var r := Identifiers(parents);
    assert forall g :: g in r ==> IsParentGroup(parents, g) by {
      forall g | g in r ensures IsParentGroup(parents, g) {
        var k :| 0 <= k < |r| && r[k] == g;
      }
    }
    r
  }

  /** As written, a player in a group is never reported as having it. */
  lemma GetGroupsLosesGroups(parents: seq<SubjectRef>)
    requires |parents| > 0
    ensures IsParentGroup(parents, parents[0].identifier)
    ensures parents[0].identifier !in GetGroupsAsWritten(parents)
    ensures parents[0].identifier in GetGroups(parents)
  {
  }

  // ---------------------------------------------------------------------
  // Permissions

  /** `hasPermission`: asks the source itself, that is the permission
      service. */
  function HasPermission(service: PermissionService, sender: CommandSource, perm: string): bool
  {
    service(sender, perm)
  }

  /** `checkPermission`: fails exactly when `hasPermission` is false. */
  function CheckPermission(service: PermissionService, sender: CommandSource, perm: string): (r: Result<(), Failure>)
    ensures r.Err? <==> !HasPermission(service, sender, perm)
    ensures r.Err? ==> r.error == CommandPermissions
  {
    if !HasPermission(service, sender, perm) then Err(CommandPermissions) else Ok(())
  }

  // ---------------------------------------------------------------------
  // WorldEdit

  /** The WorldEdit instance, when the plugin manager lists it. */
  datatype WorldEdit = WorldEditInstance

  /** `getWorldEdit`: fails when WorldEdit is not installed. */
  function GetWorldEdit(worldEditInstalled: bool): (r: Result<WorldEdit, Failure>)
    ensures r.Ok? <==> worldEditInstalled
    ensures r.Err? ==> r.error == CommandFailure
  {
    if !worldEditInstalled then Err(CommandFailure) else Ok(WorldEditInstance)
  }
}
